/**
 * The four operations of the ERI connector's data service. Each builds its
 * query, has the dataset answer it (`fetch`), and shapes the rows into a
 * response: `all` and `expand` deduplicate entities and link every row,
 * `search` and `findLikeThisIncident` list one incident per row.
 */
module ConnectorDataService {
  import opened Wrappers
  import opened Transport
  import opened QueryBuilder
  import opened Marshalling
  import opened SeedLinking

  /** `ConnectorResponse`: the entities and links sent back to the client. */
  datatype Response = Response(entities: seq<Entity>, links: seq<Link>)

  /** `all`: the unfiltered query, marshalled with deduplication and one link per row. */
  method All(keys: KeyScheme, fetch: Query -> seq<Row>) returns (r: Response)
    ensures var rows := fetch(AllQuery());
      r.entities == EntitiesOf(keys, rows) &&
      (forall l :: l in r.links ==> fresh(l)) &&
      Distinct(r.links) &&
      EndsOf(r.links) == RowLinks(keys, rows, |rows|)
  {
    var rows := fetch(AllQuery());
    var entities, links := Marshal(keys, rows);
    r := Response(entities, links);
  }

  /**
   * `search`: the query built from the conditions that have a value; one
   * incident per row, keyed by its position, and no links.
   */
  method Search(keys: KeyScheme, fetch: Query -> seq<Row>, conditions: seq<Condition>) returns (r: Response)
    ensures var rows := fetch(SearchQuery(conditions));
      |r.entities| == |rows| &&
      (forall i :: 0 <= i < |rows| ==>
        r.entities[i] == Entity(Incident, keys.indexedIncidentKey(rows[i], i), rows[i])) &&
      r.links == []
  {
    var q := BuildSearch(conditions);
    var rows := fetch(q);
    var entities := IndexedIncidents(keys, rows);
    r := Response(entities, []);
  }

  /**
   * `findLikeThisIncident`: incidents whose type starts with the first
   * seed's PT1 property, one per row, keyed by position, no links. No seed
   * at all is the failure of `seeds.entities.get(0)`.
   */
  method FindLikeThisIncident(keys: KeyScheme, fetch: Query -> seq<Row>, seeds: seq<Seed>)
    returns (r: Result<Response, Error>)
    ensures r.Failure? <==> seeds == []
    ensures r.Failure? ==> r.error == NoSeed
    ensures r.Success? ==>
      var rows := fetch(FindLikeThisQuery(seeds).value);
      |r.value.entities| == |rows| &&
      (forall i :: 0 <= i < |rows| ==>
        r.value.entities[i] == Entity(Incident, keys.indexedIncidentKey(rows[i], i), rows[i])) &&
      r.value.links == []
  {
    var q := FindLikeThisQuery(seeds);
    if q.Failure? {
      return Failure(q.error);
    }
    var rows := fetch(q.value);
    var entities := IndexedIncidents(keys, rows);
    r := Success(Response(entities, []));
  }

  /**
   * `expand`: the rows sharing the first seed's incident type (ET1) or its
   * borough and address (ET2), marshalled, then relinked to the seed. It
   * fails when there is no seed, when a property the seed's type needs is
   * missing, or when there is a link but the seed has no source key.
   */
  method Expand(keys: KeyScheme, fetch: Query -> seq<Row>, seeds: seq<Seed>)
    returns (r: Result<Response, Error>)
    ensures ExpandQuery(seeds).Failure? ==> r == Failure(ExpandQuery(seeds).error)
    ensures ExpandQuery(seeds).Success? ==>
      var rows := fetch(ExpandQuery(seeds).value);
      (r.Failure? <==> |rows| > 0 && SeedKey(seeds[0]).None?) &&
      (r.Failure? ==> r.error == MissingSourceKey) &&
      (r.Success? ==>
        r.value.entities == EntitiesOf(keys, rows) &&
        (forall l :: l in r.value.links ==> fresh(l)) &&
        Distinct(r.value.links) &&
        (rows == [] ==> r.value.links == []) &&
        (rows != [] ==> EndsOf(r.value.links) == ExpandedLinks(keys, rows, seeds[0])))
  {
    var q := ExpandQuery(seeds);
    if q.Failure? {
      return Failure(q.error);
    }
    var rows := fetch(q.value);
    var entities, links := Marshal(keys, rows);
    if rows == [] {
      RowLinksAt(keys, rows, 0);
      EndsOfAt(links);
    }
    var relinked := LinkToSeedIds(links, seeds[0]);
    if relinked.Failure? {
      return Failure(relinked.error);
    }
    r := Success(Response(entities, relinked.value));
  }

  /** The link ends of an expand response: every row's link, relinked to the seed. */
  function ExpandedLinks(keys: KeyScheme, rows: seq<Row>, seed: Seed): seq<LinkEnds>
    requires SeedKey(seed).Some?
  {
    RelinkAll(RowLinks(keys, rows, |rows|), SeedKey(seed).value, seed.seedId)
  }

  /**
   * The links of an expand response, row by row: row `i`'s link is numbered
   * `i + 1`; its from end is the seed when the row's incident key is the
   * seed's source key, otherwise its to end is the seed when the row's
   * location key is, and every other end keeps the row's key.
   */
  lemma ExpandedLinkAt(keys: KeyScheme, rows: seq<Row>, seed: Seed, i: nat)
    requires SeedKey(seed).Some? && i < |rows|
    ensures |ExpandedLinks(keys, rows, seed)| == |rows|
    ensures var key, e := SeedKey(seed).value, ExpandedLinks(keys, rows, seed)[i];
      var incident, location := keys.incidentKey(rows[i]), keys.locationKey(rows[i]);
      e.number == i + 1 &&
      e.fromEndId == (if incident == key then seed.seedId else incident) &&
      e.toEndId == (if incident != key && location == key then seed.seedId else location)
  {
    RowLinksAt(keys, rows, |rows|);
  }

  /**
   * A seed whose source key matches no row's keys leaves every link of the
   * expand response as marshalled.
   */
  lemma ExpandUnrelatedSeed(keys: KeyScheme, rows: seq<Row>, seed: Seed)
    requires SeedKey(seed).Some?
    requires forall i :: 0 <= i < |rows| ==>
      keys.incidentKey(rows[i]) != SeedKey(seed).value && keys.locationKey(rows[i]) != SeedKey(seed).value
    ensures ExpandedLinks(keys, rows, seed) == RowLinks(keys, rows, |rows|)
  {
    RowLinksAt(keys, rows, |rows|);
  }
}
