/**
 * Unique names for rendered IR entities (`ir/rendition/names/Names.kt`): an
 * id keeps the name it was first given, and a new id gets its desired name
 * followed by a decimal discriminator, counted per desired name from 0.
 */
module Naming {
  import Decimal

  /** The two maps of a `Names` object, as a value. */
  datatype Table = Table(nextDiscriminator: map<string, int>, namesById: map<int, string>)

  const Empty := Table(map[], map[])

  /** The discriminator the next new id asking for `desired` receives. */
  function Upcoming(next: map<string, int>, desired: string): int
  {
    if desired in next then next[desired] else 0
  }

  /** `findNewSuitableName`: name a new id and count the discriminator up. */
  function Fresh(t: Table, id: int, desired: string): (r: (Table, string))
    ensures r.0.namesById == t.namesById[id := r.1]
    ensures |r.1| > |desired| && r.1[..|desired|] == desired
  {
    var d := Upcoming(t.nextDiscriminator, desired);
    var name := desired + Decimal.IntToString(d);
    (Table(t.nextDiscriminator[desired := d + 1], t.namesById[id := name]), name)
  }

  /** `findNameFor`: the recorded name of `id`, or a fresh one. */
  function Step(t: Table, id: int, desired: string): (r: (Table, string))
    ensures id in r.0.namesById && r.0.namesById[id] == r.1
    ensures Extends(t.namesById, r.0.namesById)
    ensures r.0.namesById.Keys == t.namesById.Keys + {id}
  {
    if id in t.namesById then (t, t.namesById[id]) else Fresh(t, id, desired)
  }

  /** Every name `before` records is still recorded, unchanged, in `after`. */
  predicate Extends(before: map<int, string>, after: map<int, string>)
  {
    forall k :: k in before ==> k in after && after[k] == before[k]
  }

  /** A series of `findNameFor` calls, one per request, from `t`. */
  function Run(t: Table, requests: seq<(int, string)>): (r: (Table, seq<string>))
    ensures |r.1| == |requests|
    ensures Extends(t.namesById, r.0.namesById)
    decreases |requests|
  {
    if requests == [] then (t, [])
    else
      var (t1, name) := Step(t, requests[0].0, requests[0].1);
      var (t2, names) := Run(t1, requests[1..]);
      (t2, [name] + names)
  }

  class Names {
    var nextDiscriminator: map<string, int>
    var namesById: map<int, string>

    function State(): Table
      reads this
    {
      Table(nextDiscriminator, namesById)
    }

    /** Both maps start empty. */
    constructor()
      ensures State() == Empty
    {
      nextDiscriminator := map[];
      namesById := map[];
    }

    /** `findNameFor`: the name recorded for `id`, or a newly found one. */
    method FindNameFor(id: int, desired: string) returns (name: string)
      modifies this
      ensures (State(), name) == Step(old(State()), id, desired)
    {
      if id in namesById {
        name := namesById[id];
      } else {
        name := FindNewSuitableName(id, desired);
      }
    }

    /** `findNewSuitableName`: the desired name with a discriminator, recorded for `id`. */
    method FindNewSuitableName(id: int, desired: string) returns (name: string)
      modifies this
      ensures (State(), name) == Fresh(old(State()), id, desired)
    {
      var discriminator := FindDiscriminator(desired);
      name := desired + Decimal.IntToString(discriminator);
      namesById := namesById[id := name];
    }

    /** `findDiscriminator`: the stored discriminator, or 0 for a first request; counted up. */
    method FindDiscriminator(desired: string) returns (d: int)
      modifies this
      ensures d == Upcoming(old(nextDiscriminator), desired)
      ensures nextDiscriminator == old(nextDiscriminator)[desired := d + 1]
      ensures namesById == old(namesById)
    {
      if desired in nextDiscriminator {
        d := nextDiscriminator[desired];
        Update(desired, d);
        return;
      }
      d := 0;
      Update(desired, 0);
    }

    /** `update`: the next discriminator for `desired` is one past the previous. */
    method Update(desired: string, previousDiscriminator: int)
      modifies this
      ensures nextDiscriminator == old(nextDiscriminator)[desired := previousDiscriminator + 1]
      ensures namesById == old(namesById)
    {
      nextDiscriminator := nextDiscriminator[desired := previousDiscriminator + 1];
    }
  }

  /** Asking again for an id, with any desired name, returns its first name and changes nothing. */
  lemma SameIdSameName(t: Table, id: int, first: string, later: string)
    ensures Step(Step(t, id, first).0, id, later) == (Step(t, id, first).0, Step(t, id, first).1)
  {
  }

  /** Once an id is named, no later request changes its name. */
  lemma {:induction false} NameIsWrittenOnce(t: Table, requests: seq<(int, string)>, i: nat)
    requires i < |requests|
    ensures var (t1, names) := Run(t, requests);
      requests[i].0 in t1.namesById && t1.namesById[requests[i].0] == names[i]
    decreases |requests|
  {
    var (u, name) := Step(t, requests[0].0, requests[0].1);
    if i > 0 {
      NameIsWrittenOnce(u, requests[1..], i - 1);
    }
  }

  /** Requests that all ask for `desired` with ids not yet named and pairwise distinct. */
  predicate FreshRequests(t: Table, ids: seq<int>)
  {
    (forall k :: 0 <= k < |ids| ==> ids[k] !in t.namesById) &&
    (forall j, k :: 0 <= j < k < |ids| ==> ids[j] != ids[k])
  }

  function SameDesired(ids: seq<int>, desired: string): (r: seq<(int, string)>)
    ensures |r| == |ids|
    ensures forall k :: 0 <= k < |ids| ==> r[k] == (ids[k], desired)
  {
    seq(|ids|, k requires 0 <= k < |ids| => (ids[k], desired))
  }

  /** The i-th name is `desired` with discriminator `base + i`. */
  predicate CountsUp(names: seq<string>, desired: string, base: int)
    decreases |names|
  {
    |names| == 0 ||
      (names[0] == desired + Decimal.IntToString(base) && CountsUp(names[1..], desired, base + 1))
  }

  /** Names that count up from `base`: the one at index `i` has discriminator `base + i`. */
  lemma {:induction false} CountsUpAt(names: seq<string>, desired: string, base: int, i: nat)
    requires CountsUp(names, desired, base) && i < |names|
    ensures names[i] == desired + Decimal.IntToString(base + i)
    decreases i
  {
    if i > 0 {
      CountsUpAt(names[1..], desired, base + 1, i - 1);
      assert base + 1 + (i - 1) == base + i;
    }
  }

  /**
   * New ids asking for the same desired name get consecutive discriminators,
   * in request order, starting from the one stored for that name; the other
   * names' discriminators are untouched.
   */
  lemma {:induction false} SuffixesCountUp(t: Table, ids: seq<int>, desired: string)
    requires FreshRequests(t, ids)
    ensures CountsUp(Run(t, SameDesired(ids, desired)).1, desired, Upcoming(t.nextDiscriminator, desired))
    ensures Upcoming(Run(t, SameDesired(ids, desired)).0.nextDiscriminator, desired) ==
      Upcoming(t.nextDiscriminator, desired) + |ids|
    decreases |ids|
  {
    if ids != [] {
      var (u, name) := Step(t, ids[0], desired);
      FreshAfterFirst(t, ids, desired);
      SuffixesCountUp(u, ids[1..], desired);
      RunSameDesiredCons(t, ids, desired);
      CountsUpCons(name, Run(u, SameDesired(ids[1..], desired)).1, desired, Upcoming(t.nextDiscriminator, desired));
    }
  }

  /** After the first of some fresh requests is served, the rest are still fresh. */
  lemma FreshAfterFirst(t: Table, ids: seq<int>, desired: string)
    requires FreshRequests(t, ids) && ids != []
    ensures FreshRequests(Step(t, ids[0], desired).0, ids[1..])
  {
    var u := Step(t, ids[0], desired).0;
    forall k | 0 <= k < |ids[1..]|
      ensures ids[1..][k] !in u.namesById
    {
      assert ids[1..][k] == ids[k + 1];
      assert ids[0] != ids[k + 1];
    }
  }

  /** A run of fresh requests for one desired name: the first gets the upcoming discriminator, the rest follow. */
  lemma RunSameDesiredCons(t: Table, ids: seq<int>, desired: string)
    requires ids != [] && ids[0] !in t.namesById
    ensures var (u, name) := Step(t, ids[0], desired);
      Run(t, SameDesired(ids, desired)).1 == [name] + Run(u, SameDesired(ids[1..], desired)).1 &&
      Run(t, SameDesired(ids, desired)).0 == Run(u, SameDesired(ids[1..], desired)).0 &&
      name == desired + Decimal.IntToString(Upcoming(t.nextDiscriminator, desired)) &&
      Upcoming(u.nextDiscriminator, desired) == Upcoming(t.nextDiscriminator, desired) + 1
  {
    assert SameDesired(ids, desired)[1..] == SameDesired(ids[1..], desired);
  }

  /** Requests for one desired name leave every other name's counter as it was. */
  lemma {:induction false} OtherCountersKept(t: Table, ids: seq<int>, desired: string, other: string)
    requires FreshRequests(t, ids) && other != desired
    ensures Upcoming(Run(t, SameDesired(ids, desired)).0.nextDiscriminator, other) ==
      Upcoming(t.nextDiscriminator, other)
    decreases |ids|
  {
    if ids != [] {
      FreshAfterFirst(t, ids, desired);
      OtherCountersKept(Step(t, ids[0], desired).0, ids[1..], desired, other);
      RunSameDesiredCons(t, ids, desired);
    }
  }

  /** A name with discriminator `base`, before names counting up from `base + 1`, counts up from `base`. */
  lemma CountsUpCons(name: string, rest: seq<string>, desired: string, base: int)
    requires name == desired + Decimal.IntToString(base) && CountsUp(rest, desired, base + 1)
    ensures CountsUp([name] + rest, desired, base)
  {
    assert ([name] + rest)[1..] == rest;
  }

  /** Within one desired name, new ids never share a name. */
  lemma DistinctWithinDesired(t: Table, ids: seq<int>, desired: string, j: nat, k: nat)
    requires FreshRequests(t, ids)
    requires j < k < |ids|
    ensures Run(t, SameDesired(ids, desired)).1[j] != Run(t, SameDesired(ids, desired)).1[k]
  {
    SuffixesCountUp(t, ids, desired);
    CountingUpIsInjective(Run(t, SameDesired(ids, desired)).1, desired, Upcoming(t.nextDiscriminator, desired), j, k);
  }

  /** Names counted up from one base are pairwise different. */
  lemma CountingUpIsInjective(names: seq<string>, desired: string, base: int, j: nat, k: nat)
    requires CountsUp(names, desired, base) && j < k < |names|
    ensures names[j] != names[k]
  {
    CountsUpAt(names, desired, base, j);
    CountsUpAt(names, desired, base, k);
    DistinctDiscriminators(names[j], names[k], desired, base + j, base + k);
  }

  /** Names with one desired name and different discriminators differ. */
  lemma DistinctDiscriminators(x: string, y: string, desired: string, a: int, b: int)
    requires x == desired + Decimal.IntToString(a) && y == desired + Decimal.IntToString(b) && a != b
    ensures x != y
  {
    if x == y {
      SuffixInjective(desired, a, b);
    }
  }

  /** One desired name with two different discriminators gives two different names. */
  lemma SuffixInjective(desired: string, a: int, b: int)
    requires desired + Decimal.IntToString(a) == desired + Decimal.IntToString(b)
    ensures a == b
  {
    assert Decimal.IntToString(a) == (desired + Decimal.IntToString(a))[|desired|..];
    assert Decimal.IntToString(b) == (desired + Decimal.IntToString(b))[|desired|..];
    Decimal.IntToStringInjective(a, b);
  }

  /**
   * Across desired names uniqueness fails: the eleventh new id asking for
   * "t" and the first asking for "t1" are both named "t10".
   */
  lemma DesiredNamesCollide(t: Table, first: int, second: int)
    requires Upcoming(t.nextDiscriminator, "t") == 10 && Upcoming(t.nextDiscriminator, "t1") == 0
    requires first != second && first !in t.namesById && second !in t.namesById
    ensures var (t1, a) := Step(t, first, "t");
      var (t2, b) := Step(t1, second, "t1");
      a == b == "t10"
  {
    assert Decimal.NatToString(10) == Decimal.NatToString(1) + [Decimal.DigitChar(0)];
    assert Decimal.IntToString(10) == "10";
    assert Decimal.IntToString(0) == "0";
  }

  /** Ten new ids asking for "t" bring it to discriminator 10, so the collision happens from an empty table. */
  lemma CollisionFromEmpty(ids: seq<int>, first: int, second: int)
    requires |ids| == 10 && FreshRequests(Empty, ids)
    requires first != second && first !in ids && second !in ids
    ensures var t := Run(Empty, SameDesired(ids, "t")).0;
      var (t1, a) := Step(t, first, "t");
      var (t2, b) := Step(t1, second, "t1");
      a == b
  {
    SuffixesCountUp(Empty, ids, "t");
    OtherCountersKept(Empty, ids, "t", "t1");
    var t := Run(Empty, SameDesired(ids, "t")).0;
    RunNamesOnly(Empty, SameDesired(ids, "t"));
    assert first !in t.namesById && second !in t.namesById;
    DesiredNamesCollide(t, first, second);
  }

  /** The ids named after a run are those named before plus those requested. */
  lemma {:induction false} RunNamesOnly(t: Table, requests: seq<(int, string)>)
    ensures Run(t, requests).0.namesById.Keys == t.namesById.Keys + RequestedIds(requests)
    decreases |requests|
  {
    if requests != [] {
      RunNamesOnly(Step(t, requests[0].0, requests[0].1).0, requests[1..]);
      RequestedIdsCons(requests);
    }
  }

  /** The ids a series of requests asks names for. */
  function RequestedIds(requests: seq<(int, string)>): set<int>
  {
    set k | 0 <= k < |requests| :: requests[k].0
  }

  lemma RequestedIdsCons(requests: seq<(int, string)>)
    requires requests != []
    ensures RequestedIds(requests) == {requests[0].0} + RequestedIds(requests[1..])
  {
    forall x | x in RequestedIds(requests) ensures x in {requests[0].0} + RequestedIds(requests[1..]) {
      var k :| 0 <= k < |requests| && requests[k].0 == x;
      if k > 0 { assert requests[1..][k - 1].0 == x; }
    }
  }
}
