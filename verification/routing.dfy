/** The routing actor's nearby-lot search. It asks the supervisor for the
    registered ids, asks for each lot's status, and joins the replies; then
    it drops full lots when asked to, sorts by distance and keeps the first
    `limit`. The asynchronous asks are represented by their joined outcome,
    and the great-circle distance by a field of each lot. */
module Routing {
  import opened Optional

  /** One lot as the search sees it once its status reply has arrived. */
  datatype NearbyLot = NearbyLot(
    parkId: string,
    maxCapacity: int,
    currentOccupancy: int,
    availableSpaces: int,
    distanceMeters: real)

  /** The joined outcome of the registry request and the per-lot requests:
      every reply in request order, or a failure if any request failed. */
  datatype Joined = Failed | Joined(lots: seq<NearbyLot>)

  predicate Distinct(s: seq<string>) {
    forall i, j :: 0 <= i < j < |s| ==> s[i] != s[j]
  }

  predicate DistinctIds(s: seq<NearbyLot>) {
    forall i, j :: 0 <= i < j < |s| ==> s[i].parkId != s[j].parkId
  }

  predicate SortedByDistance(s: seq<NearbyLot>) {
    forall i, j :: 0 <= i < j < |s| ==> s[i].distanceMeters <= s[j].distanceMeters
  }

  /** The fan-out: one status request per registered id, each id once. The
      order of a Java key set is unspecified, so any order may come out. */
  method StatusRequests(parks: map<string, int>) returns (ids: seq<string>)
    ensures |ids| == |parks|
    ensures forall id :: id in ids <==> id in parks
    ensures Distinct(ids)
  {
    ids := [];
    var rest := parks.Keys;
    while rest != {}
      invariant rest <= parks.Keys
      invariant forall id :: id in ids <==> id in parks && id !in rest
      invariant Distinct(ids)
      invariant |ids| + |rest| == |parks|
      decreases rest
    {
      var id :| id in rest;
      ids := ids + [id];
      rest := rest - {id};
    }
  }

  /** All-or-nothing join of the per-lot replies (None: the request failed
      or timed out). */
  function Join(replies: seq<Option<NearbyLot>>): (j: Joined)
    ensures j.Joined? <==> forall i :: 0 <= i < |replies| ==> replies[i].Some?
    ensures j.Joined? ==> |j.lots| == |replies| && forall i :: 0 <= i < |replies| ==> j.lots[i] == replies[i].value
    decreases |replies|
  {
    if replies == [] then Joined([])
    else match (replies[0], Join(replies[1..]))
      case (Some(lot), Joined(rest)) => Joined([lot] + rest)
      case _ => Failed
  }

  /** Replies to requests for distinct ids, each carrying the id it was
      asked for, join to lots with distinct ids. */
  lemma JoinDistinct(ids: seq<string>, replies: seq<Option<NearbyLot>>)
    requires Distinct(ids) && |replies| == |ids|
    requires forall i :: 0 <= i < |ids| && replies[i].Some? ==> replies[i].value.parkId == ids[i]
    ensures Join(replies).Joined? ==> DistinctIds(Join(replies).lots)
  {
  }

  /** The lots with at least one free space, in their original order. */
  function OnlyAvailable(s: seq<NearbyLot>): (r: seq<NearbyLot>)
    ensures forall i :: 0 <= i < |r| ==> r[i].availableSpaces > 0 && r[i] in s
    decreases |s|
  {
    if s == [] then []
    else (if s[0].availableSpaces > 0 then [s[0]] else []) + OnlyAvailable(s[1..])
  }

  /** The filter keeps every copy of a lot with a free space and drops
      every copy of a full one. */
  lemma {:induction false} OnlyAvailableCounts(s: seq<NearbyLot>)
    ensures forall x :: multiset(OnlyAvailable(s))[x] == if x.availableSpaces > 0 then multiset(s)[x] else 0
    decreases |s|
  {
    if s != [] {
      OnlyAvailableCounts(s[1..]);
      assert s == [s[0]] + s[1..];
    }
  }

  /** Inserts `x` before the first lot that is at least as far away, so a
      lot inserted later never overtakes an equally distant one. */
  function Insert(x: NearbyLot, s: seq<NearbyLot>): (r: seq<NearbyLot>)
    ensures multiset(r) == multiset(s) + multiset{x}
    decreases |s|
  {
    if s == [] then [x]
    else if x.distanceMeters <= s[0].distanceMeters then [x] + s
    else
      assert s == [s[0]] + s[1..];
      [s[0]] + Insert(x, s[1..])
  }

  /** Every lot of `Insert(x, s)` is `x` or a lot of `s`. */
  lemma InsertElements(x: NearbyLot, s: seq<NearbyLot>)
    ensures forall y :: y in Insert(x, s) ==> y == x || y in s
  {
    forall y | y in Insert(x, s) ensures y == x || y in s {
      assert y in multiset(Insert(x, s));
    }
  }

  lemma {:induction false} InsertSorted(x: NearbyLot, s: seq<NearbyLot>)
    requires SortedByDistance(s)
    ensures SortedByDistance(Insert(x, s))
    decreases |s|
  {
    if s != [] && x.distanceMeters > s[0].distanceMeters {
      var rest := Insert(x, s[1..]);
      InsertSorted(x, s[1..]);
      InsertElements(x, s[1..]);
      forall i | 0 <= i < |rest| ensures s[0].distanceMeters <= rest[i].distanceMeters {
        assert rest[i] in rest;
      }
      var r := [s[0]] + rest;
      forall i, j | 0 <= i < j < |r| ensures r[i].distanceMeters <= r[j].distanceMeters {
        if i > 0 {
          assert r[i] == rest[i - 1] && r[j] == rest[j - 1];
        }
      }
    }
  }

  /** A stable sort by distance (Java's sort of an ordered stream is stable). */
  function SortByDistance(s: seq<NearbyLot>): (r: seq<NearbyLot>)
    ensures multiset(r) == multiset(s)
    ensures SortedByDistance(r)
    decreases |s|
  {
    if s == [] then []
    else
      assert s == [s[0]] + s[1..];
      var sortedTail := SortByDistance(s[1..]);
      InsertSorted(s[0], sortedTail);
      Insert(s[0], sortedTail)
  }

  /** The lots at exactly distance `d`, in order. */
  function AtDistance(s: seq<NearbyLot>, d: real): seq<NearbyLot>
    decreases |s|
  {
    if s == [] then []
    else (if s[0].distanceMeters == d then [s[0]] else []) + AtDistance(s[1..], d)
  }

  lemma AtDistanceCons(x: NearbyLot, s: seq<NearbyLot>, d: real)
    ensures AtDistance([x] + s, d) == (if x.distanceMeters == d then [x] else []) + AtDistance(s, d)
  {
    assert ([x] + s)[0] == x;
    assert ([x] + s)[1..] == s;
  }

  lemma {:induction false} InsertStable(x: NearbyLot, s: seq<NearbyLot>, d: real)
    ensures AtDistance(Insert(x, s), d) == (if x.distanceMeters == d then [x] else []) + AtDistance(s, d)
    decreases |s|
  {
    if s == [] {
      AtDistanceCons(x, [], d);
    } else if x.distanceMeters <= s[0].distanceMeters {
      AtDistanceCons(x, s, d);
    } else {
      var rest := Insert(x, s[1..]);
      var head := if s[0].distanceMeters == d then [s[0]] else [];
      var mine := if x.distanceMeters == d then [x] else [];
      AtDistanceCons(s[0], rest, d);
      InsertStable(x, s[1..], d);
      assert s == [s[0]] + s[1..];
      AtDistanceCons(s[0], s[1..], d);
      assert head == [] || mine == [];
      assert head + (mine + AtDistance(s[1..], d)) == mine + (head + AtDistance(s[1..], d));
    }
  }

  /** Stability: lots at equal distance keep their relative order. */
  lemma {:induction false} SortStable(s: seq<NearbyLot>, d: real)
    ensures AtDistance(SortByDistance(s), d) == AtDistance(s, d)
    decreases |s|
  {
    if s != [] {
      SortStable(s[1..], d);
      InsertStable(s[0], SortByDistance(s[1..]), d);
    }
  }

  /** The lots the search ranks: all joined lots, or only those with a free
      space. */
  function Candidates(lots: seq<NearbyLot>, onlyAvailable: bool): seq<NearbyLot> {
    if onlyAvailable then OnlyAvailable(lots) else lots
  }

  function Min(a: int, b: int): int {
    if a <= b then a else b
  }

  /** The prefix of a sorted sequence is sorted, is part of it, and holds
      its nearest elements. */
  lemma PrefixIsNearest(t: seq<NearbyLot>, k: nat)
    requires SortedByDistance(t) && k <= |t|
    ensures SortedByDistance(t[..k])
    ensures multiset(t[..k]) <= multiset(t)
    ensures forall x, y :: x in multiset(t[..k]) && y in multiset(t) - multiset(t[..k]) ==> x.distanceMeters <= y.distanceMeters
  {
    PrefixSplit(t, k);
    PrefixBelow(t, k);
  }

  lemma PrefixSplit(t: seq<NearbyLot>, k: nat)
    requires k <= |t|
    ensures multiset(t[..k]) <= multiset(t)
    ensures multiset(t) - multiset(t[..k]) == multiset(t[k..])
  {
    assert t == t[..k] + t[k..];
  }

  lemma PrefixBelow(t: seq<NearbyLot>, k: nat)
    requires SortedByDistance(t) && k <= |t|
    ensures SortedByDistance(t[..k])
    ensures forall x, y :: x in multiset(t[..k]) && y in multiset(t[k..]) ==> x.distanceMeters <= y.distanceMeters
  {
    forall x, y | x in multiset(t[..k]) && y in multiset(t[k..])
      ensures x.distanceMeters <= y.distanceMeters
    {
      assert x in t[..k] && y in t[k..];
      var i :| 0 <= i < k && t[..k][i] == x;
      var j :| 0 <= j < |t| - k && t[k..][j] == y;
      assert t[i] == x && t[k + j] == y;
    }
  }

  lemma CandidatesFromLots(lots: seq<NearbyLot>, onlyAvailable: bool)
    ensures multiset(Candidates(lots, onlyAvailable)) <= multiset(lots)
    ensures onlyAvailable ==> forall x :: x in multiset(Candidates(lots, onlyAvailable)) ==> x.availableSpaces > 0
  {
    if onlyAvailable {
      OnlyAvailableCounts(lots);
    }
  }

  /** The reply to a nearby search. A failed join and a negative limit
      (on which Java's `Stream.limit` throws) both end in the empty reply;
      otherwise the candidates sorted by distance, cut to `limit`. The reply
      is sorted, holds only joined lots, respects the filter, has length
      min(limit, number of candidates), and no candidate left out is nearer
      than one returned. */
  function Aggregate(j: Joined, limit: int, onlyAvailable: bool): (r: seq<NearbyLot>)
    ensures j.Failed? || limit < 0 ==> r == []
    ensures j.Joined? && limit >= 0 ==> |r| == Min(limit, |Candidates(j.lots, onlyAvailable)|)
    ensures SortedByDistance(r)
    ensures onlyAvailable ==> forall i :: 0 <= i < |r| ==> r[i].availableSpaces > 0
    ensures j.Joined? ==> multiset(r) <= multiset(j.lots)
    ensures j.Joined? ==> forall x, y ::
      x in multiset(r) && y in multiset(Candidates(j.lots, onlyAvailable)) - multiset(r)
      ==> x.distanceMeters <= y.distanceMeters
  {
    match j
    case Failed => []
    case Joined(lots) =>
      if limit < 0 then []
      else
        var sorted := SortByDistance(Candidates(lots, onlyAvailable));
        var k := Min(limit, |sorted|);
        PrefixFacts(lots, onlyAvailable, sorted, k);
        sorted[..k]
  }

  lemma PrefixFacts(lots: seq<NearbyLot>, onlyAvailable: bool, sorted: seq<NearbyLot>, k: nat)
    requires sorted == SortByDistance(Candidates(lots, onlyAvailable)) && k <= |sorted|
    ensures SortedByDistance(sorted[..k])
    ensures onlyAvailable ==> forall i :: 0 <= i < k ==> sorted[..k][i].availableSpaces > 0
    ensures multiset(sorted[..k]) <= multiset(lots)
    ensures forall x, y ::
      x in multiset(sorted[..k]) && y in multiset(Candidates(lots, onlyAvailable)) - multiset(sorted[..k])
      ==> x.distanceMeters <= y.distanceMeters
  {
    var candidates := Candidates(lots, onlyAvailable);
    PrefixIsNearest(sorted, k);
    CandidatesFromLots(lots, onlyAvailable);
    var r := sorted[..k];
    forall i | 0 <= i < k ensures onlyAvailable ==> r[i].availableSpaces > 0 {
      assert r[i] in multiset(r);
    }
  }

  /** Without the filter and with a limit covering every lot, the reply is
      all joined lots, reordered. */
  lemma NothingFilteredWithoutOnlyAvailable(lots: seq<NearbyLot>, limit: int)
    requires limit >= |lots|
    ensures multiset(Aggregate(Joined(lots), limit, false)) == multiset(lots)
  {
    var r := Aggregate(Joined(lots), limit, false);
    assert |r| == |lots|;
    assert r == SortByDistance(lots)[..|lots|] == SortByDistance(lots);
  }

  /** A single failed per-lot request empties the whole reply. */
  lemma AnyFailureEmpties(replies: seq<Option<NearbyLot>>, i: nat, limit: int, onlyAvailable: bool)
    requires i < |replies| && replies[i].None?
    ensures Aggregate(Join(replies), limit, onlyAvailable) == []
  {
  }

  /** In a sequence with distinct ids, a lot of the tail has another id
      than the head. */
  lemma NotFirstId(s: seq<NearbyLot>, y: NearbyLot)
    requires DistinctIds(s) && |s| > 0 && y in s[1..]
    ensures y.parkId != s[0].parkId
  {
    var k :| 0 <= k < |s[1..]| && s[1..][k] == y;
    assert s[k + 1] == y;
  }

  lemma {:induction false} OnlyAvailableDistinct(s: seq<NearbyLot>)
    requires DistinctIds(s)
    ensures DistinctIds(OnlyAvailable(s))
    decreases |s|
  {
    if s != [] {
      OnlyAvailableDistinct(s[1..]);
      var rest := OnlyAvailable(s[1..]);
      if s[0].availableSpaces > 0 {
        forall i | 0 <= i < |rest| ensures rest[i].parkId != s[0].parkId {
          NotFirstId(s, rest[i]);
        }
        var r := [s[0]] + rest;
        assert OnlyAvailable(s) == r;
        forall i, j | 0 <= i < j < |r| ensures r[i].parkId != r[j].parkId {
          if i > 0 {
            assert r[i] == rest[i - 1] && r[j] == rest[j - 1];
          }
        }
      } else {
        assert OnlyAvailable(s) == rest;
      }
    }
  }

  lemma {:induction false} InsertDistinct(x: NearbyLot, s: seq<NearbyLot>)
    requires DistinctIds(s) && forall i :: 0 <= i < |s| ==> s[i].parkId != x.parkId
    ensures DistinctIds(Insert(x, s))
    decreases |s|
  {
    if s == [] {
    } else if x.distanceMeters <= s[0].distanceMeters {
      var r := [x] + s;
      forall i, j | 0 <= i < j < |r| ensures r[i].parkId != r[j].parkId {
        if i > 0 {
          assert r[i] == s[i - 1] && r[j] == s[j - 1];
        }
      }
    } else {
      InsertDistinct(x, s[1..]);
      var rest := Insert(x, s[1..]);
      InsertElements(x, s[1..]);
      forall i | 0 <= i < |rest| ensures rest[i].parkId != s[0].parkId {
        assert rest[i] in rest;
        if rest[i] != x {
          var k :| 0 <= k < |s[1..]| && s[1..][k] == rest[i];
          assert s[k + 1] == rest[i];
        }
      }
      var r := [s[0]] + rest;
      forall i, j | 0 <= i < j < |r| ensures r[i].parkId != r[j].parkId {
        if i > 0 {
          assert r[i] == rest[i - 1] && r[j] == rest[j - 1];
        }
      }
    }
  }

  lemma {:induction false} SortDistinct(s: seq<NearbyLot>)
    requires DistinctIds(s)
    ensures DistinctIds(SortByDistance(s))
    decreases |s|
  {
    if s != [] {
      SortDistinct(s[1..]);
      var sorted := SortByDistance(s[1..]);
      forall i | 0 <= i < |sorted| ensures sorted[i].parkId != s[0].parkId {
        assert sorted[i] in multiset(s[1..]);
        var k :| 0 <= k < |s[1..]| && s[1..][k] == sorted[i];
        assert s[k + 1] == sorted[i];
      }
      InsertDistinct(s[0], sorted);
    }
  }

  /** No lot appears twice in a reply when the joined lots had distinct ids. */
  lemma AggregateDistinct(j: Joined, limit: int, onlyAvailable: bool)
    requires j.Joined? ==> DistinctIds(j.lots)
    ensures DistinctIds(Aggregate(j, limit, onlyAvailable))
  {
    if j.Joined? && limit >= 0 {
      var candidates := Candidates(j.lots, onlyAvailable);
      if onlyAvailable {
        OnlyAvailableDistinct(j.lots);
      }
      SortDistinct(candidates);
    }
  }

  /** Lots at 100 m, 50 m and 200 m with limit 2: the 50 m lot, then the 100 m lot. */
  lemma NearestTwo(a: NearbyLot, b: NearbyLot, c: NearbyLot)
    requires a.distanceMeters == 100.0 && b.distanceMeters == 50.0 && c.distanceMeters == 200.0
    ensures Aggregate(Joined([a, b, c]), 2, false) == [b, a]
  {
    SortThree(a, b, c);
    assert [b, a, c][..2] == [b, a];
  }

  lemma SortThree(a: NearbyLot, b: NearbyLot, c: NearbyLot)
    requires a.distanceMeters == 100.0 && b.distanceMeters == 50.0 && c.distanceMeters == 200.0
    ensures SortByDistance([a, b, c]) == [b, a, c]
  {
    assert [a, b, c][1..] == [b, c];
    assert SortByDistance([b, c]) == [b, c] by {
      assert [b, c][1..] == [c];
      assert [c][1..] == [];
      assert SortByDistance([c]) == [c];
      assert Insert(b, [c]) == [b, c];
    }
    assert Insert(a, [c]) == [a, c];
    assert Insert(a, [b, c]) == [b] + Insert(a, [c]);
  }

  /** A full lot (no free space) is excluded with the filter and kept without it. */
  lemma FullLotFiltered(full: NearbyLot, limit: int)
    requires full.availableSpaces == 0 && limit >= 1
    ensures Aggregate(Joined([full]), limit, true) == []
    ensures Aggregate(Joined([full]), limit, false) == [full]
  {
    assert [full][1..] == [];
  }
}
