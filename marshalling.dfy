/**
 * Response marshalling of the ERI connector: the dataset's rows become
 * incident and location entities, deduplicated by key, and one link per row.
 */
module Marshalling {
  import opened Transport

  /**
   * A link between an incident and a location. `number` is the row position
   * (from 1) that `ItemFactory.createLocationLink` receives; the ends are
   * fields because seed relinking overwrites them in place.
   */
  class Link {
    var fromEndId: string
    var toEndId: string
    const number: nat

    /** `ItemFactory.createLocationLink(incident, location, number)`. */
    constructor (incident: Entity, location: Entity, number: nat)
      ensures fromEndId == incident.id && toEndId == location.id && this.number == number
    {
      fromEndId := incident.id;
      toEndId := location.id;
      this.number := number;
    }
  }

  /** No link object appears twice. */
  ghost predicate Distinct(links: seq<Link>)
  {
    forall i, j :: 0 <= i < j < |links| ==> links[i] != links[j]
  }

  /** The list holds an entity of this kind with this key. */
  predicate Has(es: seq<Entity>, kind: Kind, id: string)
  {
    exists i :: 0 <= i < |es| && es[i].kind == kind && es[i].id == id
  }

  /** No two entities of the list share a kind and a key. */
  ghost predicate Unique(es: seq<Entity>)
  {
    forall i, j :: 0 <= i < j < |es| ==> es[i].kind != es[j].kind || es[i].id != es[j].id
  }

  /** The keys of the given kind that the first `n` rows carry. */
  function KeysUpTo(keys: KeyScheme, rows: seq<Row>, kind: Kind, n: nat): set<string>
    requires n <= |rows|
  {
    if n == 0 then {} else KeysUpTo(keys, rows, kind, n - 1) + {KeyOf(keys, kind, rows[n - 1])}
  }

  /** The entity of `kind` that row `n` contributes: none when an earlier row had its key. */
  function Fresh(keys: KeyScheme, rows: seq<Row>, kind: Kind, n: nat): seq<Entity>
    requires n < |rows|
  {
    if KeyOf(keys, kind, rows[n]) in KeysUpTo(keys, rows, kind, n) then []
    else [EntityOf(keys, kind, rows[n])]
  }

  /**
   * The entity list after the first `n` rows, stated without the maps: each
   * row contributes its incident, then its location, unless an earlier row
   * carried the same key.
   */
  function EntitiesUpTo(keys: KeyScheme, rows: seq<Row>, n: nat): seq<Entity>
    requires n <= |rows|
  {
    if n == 0 then []
    else EntitiesUpTo(keys, rows, n - 1) + Fresh(keys, rows, Incident, n - 1) + Fresh(keys, rows, Location, n - 1)
  }

  /** The entity list of a response. */
  function EntitiesOf(keys: KeyScheme, rows: seq<Row>): seq<Entity>
  {
    EntitiesUpTo(keys, rows, |rows|)
  }

  /** `store` maps exactly the keys in `seen` to an entity of `kind` with that key. */
  ghost predicate Indexes(store: map<string, Entity>, seen: set<string>, kind: Kind)
  {
    store.Keys == seen && forall k :: k in store ==> store[k].kind == kind && store[k].id == k
  }

  /**
   * The lookup `marshalItemsFromResponse` does once per kind: a stored key
   * gives back the stored entity, a new key stores `e` and lists it.
   */
  method Intern(store: map<string, Entity>, entities: seq<Entity>, e: Entity)
    returns (found: Entity, store': map<string, Entity>, entities': seq<Entity>)
    requires Indexes(store, store.Keys, e.kind)
    ensures entities' == entities + (if e.id in store then [] else [e])
    ensures Indexes(store', store.Keys + {e.id}, e.kind)
    ensures found.kind == e.kind && found.id == e.id
    ensures e.id in store ==> found == store[e.id] && store' == store
    ensures e.id !in store ==> found == e && store' == store[e.id := e]
  {
    if e.id in store {
      found, store', entities' := store[e.id], store, entities;
    } else {
      found := e;
      store' := store[e.id := e];
      entities' := entities + [e];
    }
  }

  /**
   * The state of `marshalItemsFromResponse` after `n` rows: the entity list
   * so far and the two key maps, each holding exactly the keys seen.
   */
  ghost predicate Marshalled(keys: KeyScheme, rows: seq<Row>, n: nat, entities: seq<Entity>,
                             incidents: map<string, Entity>, locations: map<string, Entity>)
    requires n <= |rows|
  {
    entities == EntitiesUpTo(keys, rows, n) &&
    Indexes(incidents, KeysUpTo(keys, rows, Incident, n), Incident) &&
    Indexes(locations, KeysUpTo(keys, rows, Location, n), Location)
  }

  /** What a link records: its number and its two ends. */
  datatype LinkEnds = LinkEnds(number: nat, fromEndId: string, toEndId: string)

  /** The current number and ends of each link, in order. */
  ghost function EndsOf(links: seq<Link>): seq<LinkEnds>
    reads set l | l in links
  {
    if links == [] then []
    else
      var last := links[|links| - 1];
      EndsOf(links[..|links| - 1]) + [LinkEnds(last.number, last.fromEndId, last.toEndId)]
  }

  /** The links the first `n` rows produce: row `i` links its incident key to its location key, numbered `i + 1`. */
  function RowLinks(keys: KeyScheme, rows: seq<Row>, n: nat): seq<LinkEnds>
    requires n <= |rows|
  {
    if n == 0 then []
    else RowLinks(keys, rows, n - 1) + [LinkEnds(n, keys.incidentKey(rows[n - 1]), keys.locationKey(rows[n - 1]))]
  }

  /**
   * The body of `marshalItemsFromResponse`'s loop for row `n`: look up (or
   * create) its incident, then its location, then link the two, numbered
   * `count`, and add the link.
   */
  method MarshalRow(keys: KeyScheme, rows: seq<Row>, n: nat,
                    incidents: map<string, Entity>, locations: map<string, Entity>,
                    entities: seq<Entity>, links: seq<Link>, count: nat)
    returns (incidents': map<string, Entity>, locations': map<string, Entity>,
             entities': seq<Entity>, links': seq<Link>, link: Link)
    requires n < |rows| && count == n + 1
    requires Marshalled(keys, rows, n, entities, incidents, locations)
    requires Distinct(links) && EndsOf(links) == RowLinks(keys, rows, n)
    ensures Marshalled(keys, rows, n + 1, entities', incidents', locations')
    ensures links' == links + [link] && fresh(link)
    ensures Distinct(links') && EndsOf(links') == RowLinks(keys, rows, n + 1)
  {
    var entry := rows[n];
    var incident, location, es;
    incident, incidents', es := Intern(incidents, entities, EntityOf(keys, Incident, entry));
    location, locations', entities' := Intern(locations, es, EntityOf(keys, Location, entry));
    link := new Link(incident, location, count);
    links' := links + [link];
    assert links'[..|links|] == links;
  }

  /**
   * `marshalItemsFromResponse`: one pass over the rows with a map per entity
   * kind; a new key creates and lists an entity, a known key reuses the
   * stored one, and every row adds a link numbered by its position from 1.
   */
  method Marshal(keys: KeyScheme, rows: seq<Row>) returns (entities: seq<Entity>, links: seq<Link>)
    ensures entities == EntitiesOf(keys, rows)
    ensures forall l :: l in links ==> fresh(l)
    ensures Distinct(links)
    ensures EndsOf(links) == RowLinks(keys, rows, |rows|)
  {
    entities := [];
    links := [];
    var incidents: map<string, Entity> := map[];
    var locations: map<string, Entity> := map[];
    var count := 0;
    for n := 0 to |rows|
      invariant count == n
      invariant Marshalled(keys, rows, n, entities, incidents, locations)
      invariant forall l :: l in links ==> fresh(l)
      invariant Distinct(links) && EndsOf(links) == RowLinks(keys, rows, n)
    {
      count := count + 1;
      var locationLink;
      incidents, locations, entities, links, locationLink :=
        MarshalRow(keys, rows, n, incidents, locations, entities, links, count);
    }
  }

  /** Row `i` gives link `i`, numbered `i + 1`, from its incident key to its location key. */
  lemma {:induction false} RowLinksAt(keys: KeyScheme, rows: seq<Row>, n: nat)
    requires n <= |rows|
    ensures |RowLinks(keys, rows, n)| == n
    ensures forall i :: 0 <= i < n ==>
      RowLinks(keys, rows, n)[i] == LinkEnds(i + 1, keys.incidentKey(rows[i]), keys.locationKey(rows[i]))
  {
    if n > 0 {
      RowLinksAt(keys, rows, n - 1);
    }
  }

  /** `EndsOf` reads each link's fields position by position. */
  lemma {:induction false} EndsOfAt(links: seq<Link>)
    ensures |EndsOf(links)| == |links|
    ensures forall i :: 0 <= i < |links| ==>
      EndsOf(links)[i] == LinkEnds(links[i].number, links[i].fromEndId, links[i].toEndId)
  {
    if links != [] {
      var front := links[..|links| - 1];
      EndsOfAt(front);
      assert forall i :: 0 <= i < |front| ==> front[i] == links[i];
    }
  }

  /**
   * A response's links, read position by position: one per row, link `i`
   * numbered `i + 1`, its ends the keys of row `i`, both listed among the
   * entities.
   */
  lemma ResponseLinks(keys: KeyScheme, rows: seq<Row>, links: seq<Link>)
    requires EndsOf(links) == RowLinks(keys, rows, |rows|)
    ensures |links| == |rows|
    ensures forall i :: 0 <= i < |links| ==>
      links[i].number == i + 1 &&
      links[i].fromEndId == keys.incidentKey(rows[i]) &&
      links[i].toEndId == keys.locationKey(rows[i])
    ensures forall i :: 0 <= i < |links| ==>
      Has(EntitiesOf(keys, rows), Incident, links[i].fromEndId) &&
      Has(EntitiesOf(keys, rows), Location, links[i].toEndId)
  {
    RowLinksAt(keys, rows, |rows|);
    EndsOfAt(links);
    assert |links| == |rows|;
    forall i | 0 <= i < |links|
      ensures links[i].number == i + 1 &&
              links[i].fromEndId == keys.incidentKey(rows[i]) &&
              links[i].toEndId == keys.locationKey(rows[i])
    {
      assert EndsOf(links)[i] == RowLinks(keys, rows, |rows|)[i];
    }
    LinkEndsListed(keys, rows);
  }

  /** A key is among the first `n` rows' keys exactly when one of those rows carries it. */
  lemma {:induction false} KeysUpToMembers(keys: KeyScheme, rows: seq<Row>, kind: Kind, n: nat, k: string)
    requires n <= |rows|
    ensures k in KeysUpTo(keys, rows, kind, n) <==> exists j :: 0 <= j < n && KeyOf(keys, kind, rows[j]) == k
  {
    if n > 0 {
      KeysUpToMembers(keys, rows, kind, n - 1, k);
    }
  }

  lemma HasAppend(a: seq<Entity>, b: seq<Entity>, kind: Kind, id: string)
    ensures Has(a + b, kind, id) <==> Has(a, kind, id) || Has(b, kind, id)
  {
    if Has(a, kind, id) {
      var i :| 0 <= i < |a| && a[i].kind == kind && a[i].id == id;
      assert (a + b)[i] == a[i];
    }
    if Has(b, kind, id) {
      var i :| 0 <= i < |b| && b[i].kind == kind && b[i].id == id;
      assert (a + b)[|a| + i] == b[i];
    }
    if Has(a + b, kind, id) {
      var i :| 0 <= i < |a + b| && (a + b)[i].kind == kind && (a + b)[i].id == id;
      if i < |a| { assert a[i] == (a + b)[i]; } else { assert b[i - |a|] == (a + b)[i]; }
    }
  }

  /** The entities listed after `n` rows are exactly one per key seen in those rows, per kind. */
  lemma {:induction false} HasUpTo(keys: KeyScheme, rows: seq<Row>, n: nat, kind: Kind, k: string)
    requires n <= |rows|
    ensures Has(EntitiesUpTo(keys, rows, n), kind, k) <==> k in KeysUpTo(keys, rows, kind, n)
  {
    if n > 0 {
      var p := EntitiesUpTo(keys, rows, n - 1);
      var fi, fl := Fresh(keys, rows, Incident, n - 1), Fresh(keys, rows, Location, n - 1);
      HasUpTo(keys, rows, n - 1, kind, k);
      HasAppend(p, fi, kind, k);
      HasAppend(p + fi, fl, kind, k);
      var kk := KeyOf(keys, kind, rows[n - 1]);
      if kk !in KeysUpTo(keys, rows, kind, n - 1) {
        var f := if kind == Incident then fi else fl;
        assert f[0].kind == kind && f[0].id == kk;
      }
    }
  }

  /**
   * Every row's incident key and location key have their entity in the list,
   * so every link's ends resolve within the response.
   */
  lemma EntitiesCover(keys: KeyScheme, rows: seq<Row>, j: nat)
    requires j < |rows|
    ensures Has(EntitiesOf(keys, rows), Incident, keys.incidentKey(rows[j]))
    ensures Has(EntitiesOf(keys, rows), Location, keys.locationKey(rows[j]))
  {
    KeysUpToMembers(keys, rows, Incident, |rows|, keys.incidentKey(rows[j]));
    KeysUpToMembers(keys, rows, Location, |rows|, keys.locationKey(rows[j]));
    HasUpTo(keys, rows, |rows|, Incident, keys.incidentKey(rows[j]));
    HasUpTo(keys, rows, |rows|, Location, keys.locationKey(rows[j]));
  }

  /** Every row's two keys are listed, so each link's ends resolve within the response. */
  lemma LinkEndsListed(keys: KeyScheme, rows: seq<Row>)
    ensures forall j :: 0 <= j < |rows| ==>
      Has(EntitiesOf(keys, rows), Incident, keys.incidentKey(rows[j])) &&
      Has(EntitiesOf(keys, rows), Location, keys.locationKey(rows[j]))
  {
    forall j | 0 <= j < |rows|
      ensures Has(EntitiesOf(keys, rows), Incident, keys.incidentKey(rows[j])) &&
              Has(EntitiesOf(keys, rows), Location, keys.locationKey(rows[j]))
    {
      EntitiesCover(keys, rows, j);
    }
  }

  /** A listed entity's kind and key were not listed by any earlier entity. */
  lemma {:induction false} UniqueUpTo(keys: KeyScheme, rows: seq<Row>, n: nat)
    requires n <= |rows|
    ensures Unique(EntitiesUpTo(keys, rows, n))
  {
    if n > 0 {
      var p := EntitiesUpTo(keys, rows, n - 1);
      var fs := Fresh(keys, rows, Incident, n - 1) + Fresh(keys, rows, Location, n - 1);
      UniqueUpTo(keys, rows, n - 1);
      FreshUnlisted(keys, rows, n - 1);
      assert EntitiesUpTo(keys, rows, n) == p + fs by {
        Concat3(p, Fresh(keys, rows, Incident, n - 1), Fresh(keys, rows, Location, n - 1));
      }
      UniqueAppend(p, fs);
    }
  }

  /** The entities row `n` adds have different kinds, and neither is listed by the earlier rows. */
  lemma FreshUnlisted(keys: KeyScheme, rows: seq<Row>, n: nat)
    requires n < |rows|
    ensures var fs := Fresh(keys, rows, Incident, n) + Fresh(keys, rows, Location, n);
      Unique(fs) && forall e :: e in fs ==> !Has(EntitiesUpTo(keys, rows, n), e.kind, e.id)
  {
    HasUpTo(keys, rows, n, Incident, keys.incidentKey(rows[n]));
    HasUpTo(keys, rows, n, Location, keys.locationKey(rows[n]));
  }

  /** Regrouping three entity lists, stated once so that `UniqueUpTo` need not rediscover it. */
  lemma Concat3(a: seq<Entity>, b: seq<Entity>, c: seq<Entity>)
    ensures a + b + c == a + (b + c)
  {}

  lemma UniqueAppend(p: seq<Entity>, fs: seq<Entity>)
    requires Unique(p) && Unique(fs)
    requires forall e :: e in fs ==> !Has(p, e.kind, e.id)
    ensures Unique(p + fs)
  {
    var es := p + fs;
    forall i, j | 0 <= i < j < |es| ensures es[i].kind != es[j].kind || es[i].id != es[j].id {
      if j < |p| {
        assert es[i] == p[i] && es[j] == p[j];
      } else if i < |p| {
        assert es[i] == p[i] && es[j] in fs;
      } else {
        assert es[i] == fs[i - |p|] && es[j] == fs[j - |p|];
      }
    }
  }

  /** Each kind and key is listed at most once: a repeated key appends nothing. */
  lemma EntitiesUnique(keys: KeyScheme, rows: seq<Row>)
    ensures Unique(EntitiesOf(keys, rows))
  {
    UniqueUpTo(keys, rows, |rows|);
  }

  /** `e` is the entity of row `j`, and no earlier row has its key. */
  ghost predicate FirstRowOf(keys: KeyScheme, rows: seq<Row>, j: nat, e: Entity)
    requires j < |rows|
  {
    e == EntityOf(keys, e.kind, rows[j]) && forall i :: 0 <= i < j ==> KeyOf(keys, e.kind, rows[i]) != e.id
  }

  lemma {:induction false} FirstSeenUpTo(keys: KeyScheme, rows: seq<Row>, n: nat, e: Entity)
    requires n <= |rows| && e in EntitiesUpTo(keys, rows, n)
    ensures exists j :: 0 <= j < n && FirstRowOf(keys, rows, j, e)
  {
    var p := EntitiesUpTo(keys, rows, n - 1);
    if e in p {
      FirstSeenUpTo(keys, rows, n - 1, e);
    } else {
      var kind := e.kind;
      assert e in Fresh(keys, rows, kind, n - 1);
      forall i | 0 <= i < n - 1 ensures KeyOf(keys, kind, rows[i]) != e.id {
        KeysUpToMembers(keys, rows, kind, n - 1, e.id);
      }
      assert FirstRowOf(keys, rows, n - 1, e);
    }
  }

  /**
   * Every listed entity is the entity of the FIRST row carrying its key: a
   * later row with the same key reuses it, and nothing else is listed.
   */
  lemma EntitiesFirstSeen(keys: KeyScheme, rows: seq<Row>, e: Entity)
    requires e in EntitiesOf(keys, rows)
    ensures exists j :: 0 <= j < |rows| && FirstRowOf(keys, rows, j, e)
  {
    FirstSeenUpTo(keys, rows, |rows|, e);
  }

  lemma {:induction false} PrefixUpTo(keys: KeyScheme, rows: seq<Row>, m: nat, n: nat)
    requires m <= n <= |rows|
    ensures EntitiesUpTo(keys, rows, m) <= EntitiesUpTo(keys, rows, n)
  {
    if m < n {
      PrefixUpTo(keys, rows, m, n - 1);
    }
  }

  /** Both lists depend only on the rows read so far. */
  lemma {:induction false} UpToSameRows(keys: KeyScheme, a: seq<Row>, b: seq<Row>, n: nat)
    requires n <= |a| && n <= |b| && a[..n] == b[..n]
    ensures EntitiesUpTo(keys, a, n) == EntitiesUpTo(keys, b, n)
    ensures forall kind :: KeysUpTo(keys, a, kind, n) == KeysUpTo(keys, b, kind, n)
  {
    if n > 0 {
      assert a[..n - 1] == a[..n][..n - 1] == b[..n][..n - 1] == b[..n - 1];
      assert a[n - 1] == a[..n][n - 1] == b[..n][n - 1] == b[n - 1];
      UpToSameRows(keys, a, b, n - 1);
    }
  }

  /** The list only grows: the entities of a prefix of the rows are a prefix of the entities, in first-seen order. */
  lemma EntitiesOfPrefix(keys: KeyScheme, rows: seq<Row>, m: nat)
    requires m <= |rows|
    ensures EntitiesOf(keys, rows[..m]) <= EntitiesOf(keys, rows)
  {
    assert rows[..m][..m] == rows[..m];
    UpToSameRows(keys, rows[..m], rows, m);
    PrefixUpTo(keys, rows, m, |rows|);
  }

  /** A further row lists one new entity per key of it not listed yet, and nothing else. */
  lemma EntitiesGrowth(keys: KeyScheme, rows: seq<Row>, r: Row)
    ensures var es := EntitiesOf(keys, rows);
      EntitiesOf(keys, rows + [r]) ==
        es + (if Has(es, Incident, keys.incidentKey(r)) then [] else [EntityOf(keys, Incident, r)])
           + (if Has(es, Location, keys.locationKey(r)) then [] else [EntityOf(keys, Location, r)])
  {
    var rs := rows + [r];
    var n := |rows|;
    assert rs[..n] == rows[..n];
    UpToSameRows(keys, rs, rows, n);
    assert rs[n] == r;
    HasUpTo(keys, rows, n, Incident, keys.incidentKey(r));
    HasUpTo(keys, rows, n, Location, keys.locationKey(r));
  }

  /** The same row twice gives one incident and one location; Marshal still makes two links. */
  lemma SameRowTwice(keys: KeyScheme, r: Row)
    ensures EntitiesOf(keys, [r, r]) == [EntityOf(keys, Incident, r), EntityOf(keys, Location, r)]
    ensures RowLinks(keys, [r, r], 2) ==
      [LinkEnds(1, keys.incidentKey(r), keys.locationKey(r)), LinkEnds(2, keys.incidentKey(r), keys.locationKey(r))]
  {
    var rs := [r, r];
    var inc, loc := EntityOf(keys, Incident, r), EntityOf(keys, Location, r);
    assert EntitiesUpTo(keys, rs, 1) == [inc, loc];
    assert KeysUpTo(keys, rs, Incident, 1) == {keys.incidentKey(r)};
    assert KeysUpTo(keys, rs, Location, 1) == {keys.locationKey(r)};
    assert Fresh(keys, rs, Incident, 1) == [] && Fresh(keys, rs, Location, 1) == [];
    assert RowLinks(keys, rs, 1) == [LinkEnds(1, keys.incidentKey(r), keys.locationKey(r))];
  }

  /** Rows A-X then A-Y: one incident A (from the first row), locations X and Y, and two links both from A. */
  lemma SharedIncident(keys: KeyScheme, r0: Row, r1: Row)
    requires keys.incidentKey(r0) == "A" && keys.incidentKey(r1) == "A"
    requires keys.locationKey(r0) == "X" && keys.locationKey(r1) == "Y"
    ensures EntitiesOf(keys, [r0, r1]) ==
      [Entity(Incident, "A", r0), Entity(Location, "X", r0), Entity(Location, "Y", r1)]
    ensures RowLinks(keys, [r0, r1], 2) == [LinkEnds(1, "A", "X"), LinkEnds(2, "A", "Y")]
  {
    var rs := [r0, r1];
    assert EntitiesUpTo(keys, rs, 1) == [Entity(Incident, "A", r0), Entity(Location, "X", r0)];
    assert KeysUpTo(keys, rs, Incident, 1) == {"A"};
    assert KeysUpTo(keys, rs, Location, 1) == {"X"};
    assert "Y" != "X";
    assert Fresh(keys, rs, Incident, 1) == [] && Fresh(keys, rs, Location, 1) == [Entity(Location, "Y", r1)];
    assert RowLinks(keys, rs, 1) == [LinkEnds(1, "A", "X")];
  }

  /**
   * The entities of `search` and `findLikeThisIncident`: one incident per
   * row, in row order, keyed with the row's position from 0, no deduplication.
   */
  method IndexedIncidents(keys: KeyScheme, rows: seq<Row>) returns (entities: seq<Entity>)
    ensures |entities| == |rows|
    ensures forall i :: 0 <= i < |rows| ==>
      entities[i] == Entity(Incident, keys.indexedIncidentKey(rows[i], i), rows[i])
  {
    entities := [];
    var index := 0;
    for n := 0 to |rows|
      invariant index == n == |entities|
      invariant forall i :: 0 <= i < n ==>
        entities[i] == Entity(Incident, keys.indexedIncidentKey(rows[i], i), rows[i])
    {
      var entry := rows[n];
      entities := entities + [Entity(Incident, keys.indexedIncidentKey(entry, index), entry)];
      index := index + 1;
    }
  }
}
