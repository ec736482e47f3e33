/**
 * Seed relinking of the ERI connector's expand operation. Each link's from end
 * is renamed to the seed's identifier if it carries the seed's source key,
 * otherwise its to end if that carries the key. At most one end of each link
 * changes. The expanded items thus attach to the entity the user selected.
 */
module SeedLinking {
  import opened Wrappers
  import opened Transport
  import opened Marshalling

  /** The third key part of the seed's first source identifier, when it exists. */
  function SeedKey(seed: Seed): (k: Option<string>)
    ensures k.Some? <==> seed.sourceIds != [] && |seed.sourceIds[0].key| > 2
    ensures k.Some? ==> k.value == seed.sourceIds[0].key[2]
  {
    if |seed.sourceIds| > 0 && |seed.sourceIds[0].key| > 2 then Some(seed.sourceIds[0].key[2])
    else None
  }

  /** One link after relinking: the from end is tried first, and at most one end is renamed. */
  function Relink(e: LinkEnds, key: string, seedId: string): (r: LinkEnds)
    ensures r.number == e.number
    ensures r.fromEndId in {e.fromEndId, seedId} && r.toEndId in {e.toEndId, seedId}
  {
    if e.fromEndId == key then e.(fromEndId := seedId)
    else if e.toEndId == key then e.(toEndId := seedId)
    else e
  }

  /** Every link of a list relinked, in order. */
  function RelinkAll(es: seq<LinkEnds>, key: string, seedId: string): (rs: seq<LinkEnds>)
    ensures |rs| == |es|
    ensures forall i :: 0 <= i < |es| ==> rs[i] == Relink(es[i], key, seedId)
  {
    if es == [] then [] else RelinkAll(es[..|es| - 1], key, seedId) + [Relink(es[|es| - 1], key, seedId)]
  }

  /**
   * `linkToSeedIds`: walks the links in order, reading the seed's source key
   * on every iteration, and renames the first end equal to it. A seed without
   * that key part fails on the first link, before any link changes; with no
   * links it is never read.
   */
  method LinkToSeedIds(links: seq<Link>, seed: Seed) returns (r: Result<seq<Link>, Error>)
    requires Distinct(links)
    modifies set l | l in links
    ensures r.Failure? <==> |links| > 0 && SeedKey(seed).None?
    ensures r.Failure? ==> r.error == MissingSourceKey && EndsOf(links) == old(EndsOf(links))
    ensures r.Success? ==> r.value == links
    ensures r.Success? && links != [] ==>
      EndsOf(links) == RelinkAll(old(EndsOf(links)), SeedKey(seed).value, seed.seedId)
  {
    ghost var before := EndsOf(links);
    EndsOfAt(links);
    var i := 0;
    while i < |links|
      invariant 0 <= i <= |links|
      invariant i > 0 ==> SeedKey(seed).Some?
      invariant forall j :: 0 <= j < i ==>
        LinkEnds(links[j].number, links[j].fromEndId, links[j].toEndId) ==
        Relink(before[j], SeedKey(seed).value, seed.seedId)
      invariant forall j :: i <= j < |links| ==>
        LinkEnds(links[j].number, links[j].fromEndId, links[j].toEndId) == before[j]
    {
      var sourceId := SeedKey(seed);
      if sourceId.None? {
        EndsOfAt(links);
        return Failure(MissingSourceKey);
      }
      var link := links[i];
      if link.fromEndId == sourceId.value {
        link.fromEndId := seed.seedId;
      } else if link.toEndId == sourceId.value {
        link.toEndId := seed.seedId;
      }
      i := i + 1;
    }
    EndsOfAt(links);
    r := Success(links);
  }

  /**
   * Relinking keeps the link's number, renames at most one end, renames only
   * an end equal to the key, and renames it to the seed identifier.
   */
  lemma RelinkOneEnd(e: LinkEnds, key: string, seedId: string)
    ensures var r := Relink(e, key, seedId);
      r.number == e.number &&
      (r.fromEndId == e.fromEndId || r.toEndId == e.toEndId) &&
      (r.fromEndId != e.fromEndId ==> e.fromEndId == key && r.fromEndId == seedId) &&
      (r.toEndId != e.toEndId ==> e.toEndId == key && r.toEndId == seedId) &&
      (e.fromEndId == key ==> r.fromEndId == seedId) &&
      (e.fromEndId != key && e.toEndId == key ==> r.toEndId == seedId) &&
      (e.fromEndId != key && e.toEndId != key ==> r == e)
  {
  }

  /**
   * Relinking is not idempotent: a link whose two ends both carry the key
   * has its from end renamed first and its to end only on a second pass,
   * which is why each link object may be visited only once.
   */
  lemma RelinkTwice(number: nat, key: string, seedId: string)
    requires key != seedId
    ensures var e := LinkEnds(number, key, key);
      Relink(e, key, seedId) == LinkEnds(number, seedId, key) &&
      Relink(Relink(e, key, seedId), key, seedId) == LinkEnds(number, seedId, seedId)
  {
  }

  /** When the seed identifier is the key itself, relinking changes nothing. */
  lemma RelinkToSameKey(es: seq<LinkEnds>, key: string)
    ensures RelinkAll(es, key, key) == es
  {
  }
}
