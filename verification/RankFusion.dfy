/** Reciprocal rank fusion of the retrieval lanes (lib/retrieval.ts, rrfFuse), over the reals. */
module RankFusion {
  type Id = string

  datatype Fused = Fused(id: Id, score: real)

  datatype Result = Ok(entries: seq<Fused>) | RangeError(parameter: string, value: int)

  const MAX_PARAMETER := 1000

  // ----- What an id scores -----

  function Contribution(k: nat, rank: nat): (c: real)
    requires k + rank > 0
    ensures c > 0.0
  {
    1.0 / (k + rank) as real
  }

  /** The sum of 1/(k + rank) over the places where the id stands in one lane. */
  function LaneScore(ids: seq<Id>, k: nat, id: Id): (s: real)
    ensures s >= 0.0 && (s > 0.0 <==> id in ids)
  {
    if ids == [] then 0.0
    else
      var n := |ids|;
      assert ids == ids[..n - 1] + [ids[n - 1]];
      LaneScore(ids[..n - 1], k, id) + if ids[n - 1] == id then Contribution(k, n) else 0.0
  }

  function Score(lanes: seq<seq<Id>>, k: nat, id: Id): (s: real)
    ensures s >= 0.0
  {
    if lanes == [] then 0.0
    else Score(lanes[..|lanes| - 1], k, id) + LaneScore(lanes[|lanes| - 1], k, id)
  }

  predicate InLanes(lanes: seq<seq<Id>>, id: Id) {
    exists l :: 0 <= l < |lanes| && id in lanes[l]
  }

  /** The 1-based position of the first occurrence. */
  function Rank(ids: seq<Id>, id: Id): (r: nat)
    requires id in ids
    ensures 1 <= r <= |ids| && ids[r - 1] == id && id !in ids[..r - 1]
  {
    var n := |ids|;
    if id in ids[..n - 1] then
      assert ids[..n - 1][..Rank(ids[..n - 1], id) - 1] == ids[..Rank(ids[..n - 1], id) - 1];
      Rank(ids[..n - 1], id)
    else n
  }

  /** Where an id is first met: the lane, and its rank there. */
  datatype Place = Place(lane: nat, rank: nat)

  function FirstPlace(lanes: seq<seq<Id>>, id: Id): (p: Place)
    requires InLanes(lanes, id)
    ensures p.lane < |lanes| && id in lanes[p.lane] && p.rank == Rank(lanes[p.lane], id)
    ensures forall l :: 0 <= l < p.lane ==> id !in lanes[l]
  {
    var n := |lanes| - 1;
    if InLanes(lanes[..n], id) then
      assert forall l :: 0 <= l < n ==> lanes[..n][l] == lanes[l];
      FirstPlace(lanes[..n], id)
    else
      assert forall l :: 0 <= l < n ==> lanes[..n][l] == lanes[l];
      Place(n, Rank(lanes[n], id))
  }

  predicate EarlierPlace(p: Place, q: Place) {
    p.lane < q.lane || (p.lane == q.lane && p.rank < q.rank)
  }

  /** The fused order: higher score first, ties by the place where an id is first met. */
  predicate Ahead(lanes: seq<seq<Id>>, k: nat, a: Id, b: Id)
    requires InLanes(lanes, a) && InLanes(lanes, b)
  {
    Score(lanes, k, a) > Score(lanes, k, b)
    || (Score(lanes, k, a) == Score(lanes, k, b) && EarlierPlace(FirstPlace(lanes, a), FirstPlace(lanes, b)))
  }

  lemma PlacesDiffer(lanes: seq<seq<Id>>, a: Id, b: Id)
    requires InLanes(lanes, a) && InLanes(lanes, b) && a != b
    ensures FirstPlace(lanes, a) != FirstPlace(lanes, b)
  {
  }

  /** The order is strict and total on the ids of the lanes, duplicates in a lane or not. */
  lemma AheadIsTotalOrder(lanes: seq<seq<Id>>, k: nat, a: Id, b: Id, c: Id)
    requires InLanes(lanes, a) && InLanes(lanes, b) && InLanes(lanes, c)
    ensures !(Ahead(lanes, k, a, b) && Ahead(lanes, k, b, a))
    ensures a != b <==> Ahead(lanes, k, a, b) || Ahead(lanes, k, b, a)
    ensures Ahead(lanes, k, a, b) && Ahead(lanes, k, b, c) ==> Ahead(lanes, k, a, c)
  {
    if a != b {
      PlacesDiffer(lanes, a, b);
    }
    hide Score;
    hide FirstPlace;
  }

  // ----- What the result must be -----

  function Members(ids: seq<Id>): (m: set<Id>)
    ensures forall id :: id in m <==> id in ids
  {
    if ids == [] then {}
    else
      assert ids == ids[..|ids| - 1] + [ids[|ids| - 1]];
      Members(ids[..|ids| - 1]) + {ids[|ids| - 1]}
  }

  function Union(lanes: seq<seq<Id>>): set<Id> {
    if lanes == [] then {} else Union(lanes[..|lanes| - 1]) + Members(lanes[|lanes| - 1])
  }

  lemma {:induction false} UnionIs(lanes: seq<seq<Id>>, id: Id)
    ensures id in Union(lanes) <==> InLanes(lanes, id)
  {
    if lanes != [] {
      var n := |lanes| - 1;
      UnionIs(lanes[..n], id);
      assert forall l :: 0 <= l < n ==> lanes[..n][l] == lanes[l];
    }
  }

  /** The best `limit` ids of the lanes, best first, each with its score. */
  ghost predicate IsTop(lanes: seq<seq<Id>>, k: nat, limit: nat, out: seq<Fused>) {
    && |out| == (if |Union(lanes)| < limit then |Union(lanes)| else limit)
    && (forall i :: 0 <= i < |out| ==> InLanes(lanes, out[i].id) && out[i].score == Score(lanes, k, out[i].id))
    && (forall i, j :: 0 <= i < j < |out| ==> Ahead(lanes, k, out[i].id, out[j].id))
    && (forall i, id :: 0 <= i < |out| && InLanes(lanes, id) && !Listed(out, id) ==> Ahead(lanes, k, out[i].id, id))
  }

  ghost predicate Listed(out: seq<Fused>, id: Id) {
    exists i :: 0 <= i < |out| && out[i].id == id
  }

  lemma NotBehindAtFirstDifference(lanes: seq<seq<Id>>, k: nat, limit: nat, a: seq<Fused>, b: seq<Fused>, i: nat)
    requires IsTop(lanes, k, limit, a) && IsTop(lanes, k, limit, b)
    requires i < |a| && a[..i] == b[..i]
    ensures !Ahead(lanes, k, a[i].id, b[i].id)
  {
    var x, y := a[i].id, b[i].id;
    AheadIsTotalOrder(lanes, k, x, y, x);
    if Listed(b, x) {
      var j :| 0 <= j < |b| && b[j].id == x;
      if j < i {
        assert a[..i][j] == b[..i][j] && a[j].id == x && Ahead(lanes, k, a[j].id, a[i].id);
        AheadIsTotalOrder(lanes, k, x, x, x);
      }
    }
  }

  /** There is only one such result. */
  lemma {:induction false} TopIsUnique(lanes: seq<seq<Id>>, k: nat, limit: nat, a: seq<Fused>, b: seq<Fused>, i: nat)
    requires IsTop(lanes, k, limit, a) && IsTop(lanes, k, limit, b) && i <= |a|
    ensures |a| == |b| && a[..i] == b[..i]
  {
    hide Ahead;
    hide Score;
    hide Union;
    hide FirstPlace;
    if i > 0 {
      TopIsUnique(lanes, k, limit, a, b, i - 1);
      NotBehindAtFirstDifference(lanes, k, limit, a, b, i - 1);
      NotBehindAtFirstDifference(lanes, k, limit, b, a, i - 1);
      AheadIsTotalOrder(lanes, k, a[i - 1].id, b[i - 1].id, a[i - 1].id);
      assert a[i - 1] == b[i - 1];
      assert a[..i] == a[..i - 1] + [a[i - 1]] && b[..i] == b[..i - 1] + [b[i - 1]];
    }
  }

  // ----- The algorithm -----

  datatype Acc = Acc(score: real, place: Place)

  /** The accumulator map after the lanes (or parts of lanes) read so far. */
  ghost predicate Accumulated(acc: map<Id, Acc>, lanes: seq<seq<Id>>, k: nat) {
    forall id ::
      if id in acc then
        InLanes(lanes, id) && acc[id] == Acc(Score(lanes, k, id), FirstPlace(lanes, id))
      else !InLanes(lanes, id)
  }

  /** Reading one more id of the last lane. */
  lemma ReadOne(lanes: seq<seq<Id>>, ids: seq<Id>, k: nat, next: Id, id: Id)
    ensures var before, after := lanes + [ids], lanes + [ids + [next]];
            && Score(after, k, id) == Score(before, k, id) + (if id == next then Contribution(k, |ids| + 1) else 0.0)
            && (InLanes(after, id) <==> InLanes(before, id) || id == next)
            && (InLanes(before, id) ==> FirstPlace(after, id) == FirstPlace(before, id))
            && (!InLanes(before, id) && id == next ==>
                  Score(before, k, id) == 0.0 && FirstPlace(after, id) == Place(|lanes|, |ids| + 1))
  {
    var before, after := lanes + [ids], lanes + [ids + [next]];
    assert before[..|lanes|] == lanes && after[..|lanes|] == lanes;
    assert (ids + [next])[..|ids|] == ids;
    InLanesAppend(lanes, ids, id);
    InLanesAppend(lanes, ids + [next], id);
    if !InLanes(before, id) {
      ScoreZero(lanes, k, id);
    }
    hide InLanes;
    hide Contribution;
  }

  lemma InLanesAppend(lanes: seq<seq<Id>>, ids: seq<Id>, id: Id)
    ensures InLanes(lanes + [ids], id) <==> InLanes(lanes, id) || id in ids
  {
    var all := lanes + [ids];
    assert all[|lanes|] == ids && forall l :: 0 <= l < |lanes| ==> all[l] == lanes[l];
  }

  lemma {:induction false} ScoreZero(lanes: seq<seq<Id>>, k: nat, id: Id)
    ensures Score(lanes, k, id) == 0.0 <==> !InLanes(lanes, id)
  {
    if lanes != [] {
      var n := |lanes| - 1;
      ScoreZero(lanes[..n], k, id);
      InLanesAppend(lanes[..n], lanes[n], id);
      assert lanes == lanes[..n] + [lanes[n]];
    }
  }

  /** Starting a new lane changes nothing yet. */
  lemma StartLane(lanes: seq<seq<Id>>, k: nat, id: Id)
    ensures Score(lanes + [[]], k, id) == Score(lanes, k, id)
    ensures InLanes(lanes + [[]], id) <==> InLanes(lanes, id)
    ensures InLanes(lanes, id) ==> FirstPlace(lanes + [[]], id) == FirstPlace(lanes, id)
  {
    assert (lanes + [[]])[..|lanes|] == lanes;
    InLanesAppend(lanes, [], id);
  }

  function Add(acc: map<Id, Acc>, k: nat, lane: nat, rank: nat, id: Id): map<Id, Acc>
    requires rank > 0
  {
    if id in acc then acc[id := Acc(acc[id].score + Contribution(k, rank), acc[id].place)]
    else acc[id := Acc(Contribution(k, rank), Place(lane, rank))]
  }

  lemma AddAccumulates(acc: map<Id, Acc>, lanes: seq<seq<Id>>, ids: seq<Id>, k: nat, next: Id)
    requires Accumulated(acc, lanes + [ids], k)
    ensures Accumulated(Add(acc, k, |lanes|, |ids| + 1, next), lanes + [ids + [next]], k)
  {
    forall id: Id {
      ReadOne(lanes, ids, k, next, id);
    }
    hide Score;
    hide FirstPlace;
    hide InLanes;
    hide Contribution;
  }

  lemma StartLaneAccumulates(acc: map<Id, Acc>, lanes: seq<seq<Id>>, k: nat)
    requires Accumulated(acc, lanes, k)
    ensures Accumulated(acc, lanes + [[]], k)
  {
    forall id: Id {
      StartLane(lanes, k, id);
    }
    hide Score;
    hide InLanes;
    hide FirstPlace;
  }

  /** The inner loop: one lane. */
  method AccumulateLane(start: map<Id, Acc>, ghost done: seq<seq<Id>>, laneIdx: nat, ids: seq<Id>, k: nat)
    returns (acc: map<Id, Acc>)
    requires Accumulated(start, done, k) && laneIdx == |done|
    ensures Accumulated(acc, done + [ids], k)
  {
    hide Accumulated;
    hide Contribution;
    acc := start;
    StartLaneAccumulates(acc, done, k);
    assert ids[..0] == [];
    var i := 0;
    while i < |ids|
      invariant 0 <= i <= |ids|
      invariant Accumulated(acc, done + [ids[..i]], k)
    {
      AddAccumulates(acc, done, ids[..i], k, ids[i]);
      assert ids[..i + 1] == ids[..i] + [ids[i]];
      var rank := i + 1;
      if ids[i] in acc {
        acc := acc[ids[i] := Acc(acc[ids[i]].score + Contribution(k, rank), acc[ids[i]].place)];
      } else {
        acc := acc[ids[i] := Acc(Contribution(k, rank), Place(laneIdx, rank))];
      }
      i := i + 1;
    }
    assert ids[..i] == ids;
  }

  method Accumulate(lanes: seq<seq<Id>>, k: nat) returns (acc: map<Id, Acc>)
    ensures Accumulated(acc, lanes, k)
  {
    acc := map[];
    var laneIdx := 0;
    assert Accumulated(acc, lanes[..0], k);
    hide Accumulated;
    while laneIdx < |lanes|
      invariant 0 <= laneIdx <= |lanes|
      invariant Accumulated(acc, lanes[..laneIdx], k)
    {
      acc := AccumulateLane(acc, lanes[..laneIdx], laneIdx, lanes[laneIdx], k);
      assert lanes[..laneIdx + 1] == lanes[..laneIdx] + [lanes[laneIdx]];
      laneIdx := laneIdx + 1;
    }
    assert lanes[..laneIdx] == lanes;
  }

  /** The comparator of `fused.sort`. */
  predicate Sooner(acc: map<Id, Acc>, a: Id, b: Id)
    requires a in acc && b in acc
  {
    acc[a].score > acc[b].score
    || (acc[a].score == acc[b].score && EarlierPlace(acc[a].place, acc[b].place))
  }

  ghost predicate SortedBy(acc: map<Id, Acc>, s: seq<Id>) {
    (forall i :: 0 <= i < |s| ==> s[i] in acc)
    && forall i, j :: 0 <= i < j < |s| ==> Sooner(acc, s[i], s[j])
  }

  ghost predicate Ordering(acc: map<Id, Acc>) {
    && (forall a, b :: a in acc && b in acc && a != b ==> Sooner(acc, a, b) || Sooner(acc, b, a))
    && (forall a, b, c :: a in acc && b in acc && c in acc && Sooner(acc, a, b) && Sooner(acc, b, c) ==> Sooner(acc, a, c))
  }

  /** Puts one entry where the comparator wants it. */
  method Insert(acc: map<Id, Acc>, s: seq<Id>, id: Id) returns (out: seq<Id>)
    requires Ordering(acc) && SortedBy(acc, s) && id in acc && id !in s
    ensures SortedBy(acc, out) && |out| == |s| + 1 && forall x :: x in out <==> x in s || x == id
  {
    var at := 0;
    while at < |s| && Sooner(acc, s[at], id)
      invariant 0 <= at <= |s|
      invariant forall i :: 0 <= i < at ==> Sooner(acc, s[i], id)
    {
      at := at + 1;
    }
    out := s[..at] + [id] + s[at..];
    forall j | at <= j < |s|
      ensures Sooner(acc, id, s[j])
    {
      assert s[at] in s && s[at] != id;
      assert Sooner(acc, id, s[at]);
    }
    hide Sooner;
    InsertMembers(s, at, id);
  }

  lemma InsertMembers(s: seq<Id>, at: nat, id: Id)
    requires at <= |s|
    ensures forall x :: x in s[..at] + [id] + s[at..] <==> x in s || x == id
  {
    assert s == s[..at] + s[at..];
  }

  /** `Array.from(acc.entries())` sorted in place. */
  method SortEntries(acc: map<Id, Acc>) returns (s: seq<Id>)
    requires Ordering(acc)
    ensures SortedBy(acc, s) && |s| == |acc| && forall id :: id in s <==> id in acc
  {
    var left := acc.Keys;
    s := [];
    while left != {}
      invariant left <= acc.Keys && |s| + |left| == |acc.Keys|
      invariant SortedBy(acc, s)
      invariant forall id :: id in s <==> id in acc && id !in left
      decreases |left|
    {
      var id :| id in left;
      s := Insert(acc, s, id);
      left := left - {id};
      hide Ordering;
      hide SortedBy;
    }
  }

  /** The comparator on the accumulators is the fused order of the lanes. */
  ghost predicate SameOrder(acc: map<Id, Acc>, lanes: seq<seq<Id>>, k: nat) {
    forall a, b :: a in acc && b in acc ==>
      InLanes(lanes, a) && InLanes(lanes, b) && (Sooner(acc, a, b) <==> Ahead(lanes, k, a, b))
  }

  /** `fused.slice(0, limit)` with the helper fields dropped. */
  function Cut(acc: map<Id, Acc>, sorted: seq<Id>, limit: nat): (out: seq<Fused>)
    requires forall id :: id in sorted ==> id in acc
    ensures |out| == if |sorted| < limit then |sorted| else limit
    ensures forall i :: 0 <= i < |out| ==> out[i] == Fused(sorted[i], acc[sorted[i]].score)
  {
    seq(if |sorted| < limit then |sorted| else limit, i requires 0 <= i < |sorted| => Fused(sorted[i], acc[sorted[i]].score))
  }

  lemma AccumulatedIsOrdering(acc: map<Id, Acc>, lanes: seq<seq<Id>>, k: nat)
    requires Accumulated(acc, lanes, k)
    ensures Ordering(acc)
    ensures SameOrder(acc, lanes, k)
    ensures acc.Keys == Union(lanes)
  {
    forall a, b | a in acc && b in acc && a != b
      ensures Sooner(acc, a, b) || Sooner(acc, b, a)
    {
      AheadIsTotalOrder(lanes, k, a, b, a);
    }
    forall a, b, c | a in acc && b in acc && c in acc && Sooner(acc, a, b) && Sooner(acc, b, c)
      ensures Sooner(acc, a, c)
    {
      AheadIsTotalOrder(lanes, k, a, b, c);
    }
    forall id: Id {
      UnionIs(lanes, id);
    }
  }

  method RrfFuse(lanes: seq<seq<Id>>, k: int, limit: int) returns (r: Result)
    ensures r.RangeError? <==> !(1 <= k <= MAX_PARAMETER && 1 <= limit <= MAX_PARAMETER)
    ensures r.Ok? ==> IsTop(lanes, k, limit, r.entries)
  {
    if k < 1 || k > MAX_PARAMETER {
      return RangeError("k", k);
    }
    if limit < 1 || limit > MAX_PARAMETER {
      return RangeError("limit", limit);
    }
    hide Accumulated;
    hide SameOrder;
    hide SortedBy;
    hide Ordering;
    hide Union;
    hide IsTop;
    var acc := Accumulate(lanes, k);
    AccumulatedIsOrdering(acc, lanes, k);
    var sorted := SortEntries(acc);
    SortedPrefixIsTop(acc, lanes, k, limit, sorted, Cut(acc, sorted, limit));
    r := Ok(Cut(acc, sorted, limit));
  }

  lemma SortedPrefixIsTop(
      acc: map<Id, Acc>, lanes: seq<seq<Id>>, k: nat, limit: nat, sorted: seq<Id>, out: seq<Fused>)
    requires Accumulated(acc, lanes, k) && acc.Keys == Union(lanes)
    requires SameOrder(acc, lanes, k)
    requires SortedBy(acc, sorted) && |sorted| == |acc| && forall id :: id in sorted <==> id in acc
    requires |out| == if |sorted| < limit then |sorted| else limit
    requires forall i :: 0 <= i < |out| ==> out[i] == Fused(sorted[i], acc[sorted[i]].score)
    ensures IsTop(lanes, k, limit, out)
  {
    hide Union;
    hide Score;
    hide FirstPlace;
    hide Accumulated;
    hide InLanes;
    hide Listed;
    hide Ahead;
    hide SameOrder;
    hide SortedBy;
    assert |acc| == |acc.Keys|;
    ListedAreScored(acc, lanes, k, sorted, out);
    forall i, id | 0 <= i < |out| && InLanes(lanes, id) && !Listed(out, id)
      ensures Ahead(lanes, k, out[i].id, id)
    {
      LeftOutComesLater(acc, lanes, k, sorted, out, i, id);
    }
    forall i, j | 0 <= i < j < |out|
      ensures Ahead(lanes, k, out[i].id, out[j].id)
    {
      SortedIsAhead(acc, lanes, k, sorted, i, j);
    }
  }

  lemma ListedAreScored(acc: map<Id, Acc>, lanes: seq<seq<Id>>, k: nat, sorted: seq<Id>, out: seq<Fused>)
    requires Accumulated(acc, lanes, k)
    requires |out| <= |sorted| && forall id :: id in sorted <==> id in acc
    requires forall i :: 0 <= i < |out| ==> out[i] == Fused(sorted[i], acc[sorted[i]].score)
    ensures forall i :: 0 <= i < |out| ==> InLanes(lanes, out[i].id) && out[i].score == Score(lanes, k, out[i].id)
  {
    hide Score;
    hide FirstPlace;
    forall i | 0 <= i < |out|
      ensures InLanes(lanes, out[i].id) && out[i].score == Score(lanes, k, out[i].id)
    {
      assert sorted[i] in acc;
    }
  }

  lemma SortedIsAhead(acc: map<Id, Acc>, lanes: seq<seq<Id>>, k: nat, sorted: seq<Id>, i: nat, j: nat)
    requires SameOrder(acc, lanes, k) && SortedBy(acc, sorted) && i < j < |sorted|
    ensures InLanes(lanes, sorted[i]) && InLanes(lanes, sorted[j]) && Ahead(lanes, k, sorted[i], sorted[j])
  {
    hide Ahead;
    hide InLanes;
  }

  lemma LeftOutComesLater(
      acc: map<Id, Acc>, lanes: seq<seq<Id>>, k: nat, sorted: seq<Id>, out: seq<Fused>, i: nat, id: Id)
    requires Accumulated(acc, lanes, k)
    requires SameOrder(acc, lanes, k)
    requires SortedBy(acc, sorted) && forall id :: id in sorted <==> id in acc
    requires |out| <= |sorted| && forall i :: 0 <= i < |out| ==> out[i] == Fused(sorted[i], acc[sorted[i]].score)
    requires i < |out| && InLanes(lanes, id) && !Listed(out, id)
    ensures InLanes(lanes, out[i].id) && Ahead(lanes, k, out[i].id, id)
  {
    assert id in acc && id in sorted;
    var j :| 0 <= j < |sorted| && sorted[j] == id;
    forall m | 0 <= m < |out|
      ensures sorted[m] != id
    {
      assert out[m].id == sorted[m];
    }
    assert Sooner(acc, sorted[i], sorted[j]);
    hide Ahead;
    hide Score;
  }

  // ----- What fusion promises -----

  lemma SmallerRankGivesMore(k: nat, a: nat, b: nat)
    requires 0 < a < b
    ensures Contribution(k, a) > Contribution(k, b)
  {
    ReciprocalDecreases((k + a) as real, (k + b) as real);
  }

  lemma ReciprocalDecreases(x: real, y: real)
    requires 0.0 < x < y
    ensures 1.0 / x > 1.0 / y
  {
    assert 1.0 / x - 1.0 / y == (y - x) / (x * y);
  }

  predicate NoDuplicates(ids: seq<Id>) {
    forall i, j :: 0 <= i < j < |ids| ==> ids[i] != ids[j]
  }

  lemma {:induction false} LaneScoreIs(ids: seq<Id>, k: nat, id: Id)
    requires NoDuplicates(ids) && id in ids
    ensures LaneScore(ids, k, id) == Contribution(k, Rank(ids, id))
  {
    var n := |ids|;
    if id in ids[..n - 1] {
      LaneScoreIs(ids[..n - 1], k, id);
    }
  }

  /** Where `y` stands in the lane at all, `x` stands ahead of it. */
  predicate Leads(ids: seq<Id>, x: Id, y: Id) {
    y in ids ==> x in ids && Rank(ids, x) < Rank(ids, y)
  }

  lemma {:induction false} LeaderScoresMore(lanes: seq<seq<Id>>, k: nat, x: Id, y: Id)
    requires forall l :: 0 <= l < |lanes| ==> NoDuplicates(lanes[l]) && Leads(lanes[l], x, y)
    ensures Score(lanes, k, x) >= Score(lanes, k, y)
    ensures InLanes(lanes, y) ==> Score(lanes, k, x) > Score(lanes, k, y)
  {
    if lanes != [] {
      var n := |lanes| - 1;
      LeaderScoresMore(lanes[..n], k, x, y);
      assert lanes == lanes[..n] + [lanes[n]];
      InLanesAppend(lanes[..n], lanes[n], y);
      if y in lanes[n] {
        LaneScoreIs(lanes[n], k, x);
        LaneScoreIs(lanes[n], k, y);
        SmallerRankGivesMore(k, Rank(lanes[n], x), Rank(lanes[n], y));
      }
      hide Contribution;
      hide InLanes;
    }
  }

  /** An id ranked ahead of another wherever the other appears is fused ahead of it. */
  lemma LeaderComesFirst(lanes: seq<seq<Id>>, k: nat, x: Id, y: Id)
    requires InLanes(lanes, x) && InLanes(lanes, y)
    requires forall l :: 0 <= l < |lanes| ==> NoDuplicates(lanes[l]) && Leads(lanes[l], x, y)
    ensures Ahead(lanes, k, x, y)
  {
    LeaderScoresMore(lanes, k, x, y);
  }

  lemma TwoReciprocals(k: nat, length: nat)
    requires 0 < length < k + 2
    ensures 2.0 * Contribution(k, length) > Contribution(k, 1)
  {
    var p, q := (k + length) as real, (k + 1) as real;
    assert 2.0 * q > p;
    assert 2.0 * (1.0 / p) - 1.0 / q == (2.0 * q - p) / (p * q);
  }

  lemma TwoLaneScore(a: seq<Id>, b: seq<Id>, k: nat, id: Id)
    ensures Score([a, b], k, id) == LaneScore(a, k, id) + LaneScore(b, k, id)
    ensures InLanes([a, b], id) <==> id in a || id in b
  {
    assert [a, b][..1] == [a] && [a][..0] == [];
    assert Score([a], k, id) == Score([], k, id) + LaneScore(a, k, id);
    assert [a, b][0] == a && [a, b][1] == b;
  }

  lemma RankBounds(k: nat, rank: nat, length: nat)
    requires 1 <= rank <= length
    ensures Contribution(k, length) <= Contribution(k, rank) <= Contribution(k, 1)
  {
    if rank < length {
      SmallerRankGivesMore(k, rank, length);
    }
    if 1 < rank {
      SmallerRankGivesMore(k, 1, rank);
    }
  }

  /** With two lanes shorter than k + 2, being found by both beats being found by one. */
  lemma AgreementComesFirst(a: seq<Id>, b: seq<Id>, k: nat, length: nat, both: Id, one: Id)
    requires NoDuplicates(a) && NoDuplicates(b) && |a| <= length && |b| <= length && length < k + 2
    requires both in a && both in b
    requires (one in a) != (one in b)
    ensures InLanes([a, b], both) && InLanes([a, b], one) && Ahead([a, b], k, both, one)
  {
    TwoLaneScore(a, b, k, both);
    TwoLaneScore(a, b, k, one);
    LaneScoreIs(a, k, both);
    LaneScoreIs(b, k, both);
    RankBounds(k, Rank(a, both), length);
    RankBounds(k, Rank(b, both), length);
    TwoReciprocals(k, length);
    var lane := if one in a then a else b;
    LaneScoreIs(lane, k, one);
    RankBounds(k, Rank(lane, one), length);
    hide Contribution;
    hide Score;
  }

  /** Two lanes of length k + 2 that share their last id, while the first id of the one is not in the other. */
  predicate Borderline(a: seq<Id>, b: seq<Id>, k: nat) {
    && |a| == k + 2 && |b| == k + 2
    && NoDuplicates(a) && NoDuplicates(b)
    && a[0] !in b && a[k + 1] == b[k + 1]
  }

  /** One place longer and the bound fails, at every k: a top hit of one lane ties with the shared last id and wins. */
  lemma AgreementLosesAtTheBound(a: seq<Id>, b: seq<Id>, k: nat)
    requires k >= 1 && Borderline(a, b, k)
    ensures Score([a, b], k, a[0]) == Score([a, b], k, a[k + 1])
    ensures InLanes([a, b], a[0]) && InLanes([a, b], a[k + 1]) && Ahead([a, b], k, a[0], a[k + 1])
  {
    var x, z := a[0], a[k + 1];
    TwoLaneScore(a, b, k, x);
    TwoLaneScore(a, b, k, z);
    LaneScoreIs(a, k, x);
    LaneScoreIs(a, k, z);
    assert z == b[k + 1];
    LaneScoreIs(b, k, z);
    assert Rank(a, x) == 1 && Rank(a, z) == k + 2 && Rank(b, z) == k + 2;
    TwoLastPlacesTieAFirst(k);
    FirstInFirstLane(a, b, x);
    FirstInFirstLane(a, b, z);
    hide Score;
    hide Contribution;
    hide FirstPlace;
  }

  lemma TwoLastPlacesTieAFirst(k: nat)
    requires k >= 1
    ensures Contribution(k, k + 2) + Contribution(k, k + 2) == Contribution(k, 1)
  {
    var q := (k + 1) as real;
    assert (k + (k + 2)) as real == 2.0 * q;
    assert 1.0 / (2.0 * q) + 1.0 / (2.0 * q) == 1.0 / q;
  }

  lemma FirstInFirstLane(a: seq<Id>, b: seq<Id>, id: Id)
    requires id in a && InLanes([a, b], id)
    ensures FirstPlace([a, b], id) == Place(0, Rank(a, id))
  {
    assert [a, b][0] == a;
  }

  function Tally(c: char, n: nat): (s: string)
    ensures |s| == n
  {
    seq(n, _ => c)
  }

  /** Such lanes exist for every k, so no longer lanes than the bound allows are safe. */
  lemma AgreementBoundIsSharp(k: nat) returns (a: seq<Id>, b: seq<Id>)
    requires k >= 1
    ensures Borderline(a, b, k)
    ensures InLanes([a, b], a[0]) && InLanes([a, b], a[k + 1]) && Ahead([a, b], k, a[0], a[k + 1])
  {
    a := seq(k + 2, i requires 0 <= i < k + 2 => if i == k + 1 then "" else Tally('a', i + 1));
    b := seq(k + 2, i requires 0 <= i < k + 2 => if i == k + 1 then "" else Tally('b', i + 1));
    forall i | 0 <= i < |b|
      ensures b[i] != a[0]
    {
      if i == 0 {
        assert a[0][0] == 'a' && b[0][0] == 'b';
      }
    }
    AgreementLosesAtTheBound(a, b, k);
  }
}
