/** The deterministic body chunker (lib/chunk.ts), over an arbitrary token offset table. */
module Chunker {
  import opened JsText

  // ----- Token offsets -----

  /** off[i] is the character where token i begins; the last entry is the body length. */
  ghost predicate Offsets(off: seq<nat>, length: nat) {
    |off| >= 1 && off[|off| - 1] == length && Monotone(off)
  }

  ghost predicate Monotone(off: seq<nat>) {
    |off| >= 1 && off[0] == 0 && forall i, j :: 0 <= i <= j < |off| ==> off[i] <= off[j]
  }

  ghost predicate StrictlyIncreasing(off: seq<nat>) {
    forall i, j :: 0 <= i < j < |off| ==> off[i] < off[j]
  }

  /** The largest index at or below `hi` whose offset does not pass `at`. */
  function LastAtOrBelow(off: seq<nat>, at: nat, hi: nat): (i: nat)
    requires hi < |off|
    ensures i <= hi && (i > 0 ==> off[i] <= at) && forall k :: i < k <= hi ==> off[k] > at
  {
    if hi == 0 || off[hi] <= at then hi else LastAtOrBelow(off, at, hi - 1)
  }

  function TokenIndexAt(off: seq<nat>, at: nat): (i: nat)
    requires |off| >= 1
    ensures i < |off| && (i > 0 ==> off[i] <= at) && forall k :: i < k < |off| ==> off[k] > at
  {
    LastAtOrBelow(off, at, |off| - 1)
  }

  /** The binary search. */
  method TokenIndexAtCharOffset(off: seq<nat>, at: nat) returns (i: nat)
    requires Monotone(off)
    ensures i == TokenIndexAt(off, at)
  {
    var lo, hi := 0, |off| - 1;
    while lo < hi
      invariant 0 <= lo <= hi < |off|
      invariant off[lo] <= at && forall k :: hi < k < |off| ==> off[k] > at
    {
      var mid := (lo + hi + 1) / 2;
      if off[mid] <= at {
        lo := mid;
      } else {
        hi := mid - 1;
      }
    }
    i := lo;
    assert off[TokenIndexAt(off, at)] <= at;
  }

  // ----- Forbidden ranges -----

  datatype Range = Range(start: nat, end: nat)

  predicate Contains(r: Range, p: nat) {
    r.start <= p < r.end
  }

  predicate Inside(r: Range, p: nat) {
    r.start < p < r.end
  }

  predicate RangesContain(ranges: seq<Range>, p: nat) {
    exists r :: r in ranges && Contains(r, p)
  }

  /** A split at `p` would cut one of the ranges in two. */
  predicate SplitsRange(ranges: seq<Range>, p: nat) {
    exists r :: r in ranges && Inside(r, p)
  }

  ghost predicate NonEmpty(ranges: seq<Range>) {
    forall r :: r in ranges ==> r.start < r.end
  }

  ghost predicate SortedByStart(ranges: seq<Range>) {
    forall i, j :: 0 <= i < j < |ranges| ==> ranges[i].start <= ranges[j].start
  }

  /** Sorted, pairwise without common characters; touching is allowed. */
  ghost predicate Separate(ranges: seq<Range>) {
    NonEmpty(ranges) && forall i, j :: 0 <= i < j < |ranges| ==> ranges[i].end <= ranges[j].start
  }

  function InsertByStart(sorted: seq<Range>, r: Range): (out: seq<Range>)
    ensures |out| == |sorted| + 1 && forall q :: q in out <==> q in sorted || q == r
  {
    if sorted == [] || sorted[|sorted| - 1].start <= r.start then sorted + [r]
    else InsertByStart(sorted[..|sorted| - 1], r) + [sorted[|sorted| - 1]]
  }

  /** `ranges.sort((a, b) => a[0] - b[0])`, which is stable. */
  function SortByStart(ranges: seq<Range>): (out: seq<Range>)
    ensures |out| == |ranges| && forall q :: q in out <==> q in ranges
  {
    if ranges == [] then []
    else InsertByStart(SortByStart(ranges[..|ranges| - 1]), ranges[|ranges| - 1])
  }

  lemma {:induction false} InsertKeepsSorted(sorted: seq<Range>, r: Range)
    requires SortedByStart(sorted)
    ensures SortedByStart(InsertByStart(sorted, r))
  {
    if sorted != [] && r.start < sorted[|sorted| - 1].start {
      var n := |sorted| - 1;
      InsertKeepsSorted(sorted[..n], r);
      var front := InsertByStart(sorted[..n], r);
      forall i | 0 <= i < |front|
        ensures front[i].start <= sorted[n].start
      {
        assert front[i] in front;
      }
      assert InsertByStart(sorted, r) == front + [sorted[n]];
    }
  }

  lemma {:induction false} SortSorts(ranges: seq<Range>)
    ensures SortedByStart(SortByStart(ranges))
  {
    if ranges != [] {
      SortSorts(ranges[..|ranges| - 1]);
      InsertKeepsSorted(SortByStart(ranges[..|ranges| - 1]), ranges[|ranges| - 1]);
    }
  }

  /** `merged` stands for `ranges`: same characters, same cuts, and no new edges. */
  ghost predicate StandsFor(merged: seq<Range>, ranges: seq<Range>) {
    && (forall p :: RangesContain(merged, p) <==> RangesContain(ranges, p))
    && (forall p :: SplitsRange(merged, p) <==> SplitsRange(ranges, p))
    && (forall m :: m in merged ==> HasEdges(ranges, m))
  }

  /** What the merge keeps true after each range. */
  ghost predicate Merged(merged: seq<Range>, done: seq<Range>) {
    && Separate(merged)
    && StandsFor(merged, done)
    && (merged == [] <==> done == [])
    && (done != [] ==> merged[|merged| - 1].start <= done[|done| - 1].start)
  }

  function AddRange(merged: seq<Range>, r: Range): seq<Range> {
    var n := |merged| - 1;
    if merged != [] && r.start < merged[n].end then merged[..n] + [Widen(merged[n], r)] else merged + [r]
  }

  function Widen(last: Range, r: Range): Range {
    Range(last.start, if r.end > last.end then r.end else last.end)
  }

  lemma CoverConcat(a: seq<Range>, r: Range, p: nat)
    ensures RangesContain(a + [r], p) <==> RangesContain(a, p) || Contains(r, p)
    ensures SplitsRange(a + [r], p) <==> SplitsRange(a, p) || Inside(r, p)
  {
    assert forall q :: q in a + [r] <==> q in a || q == r;
  }

  lemma AddRangeCovers(merged: seq<Range>, r: Range, p: nat)
    requires NonEmpty(merged) && r.start < r.end
    requires merged != [] ==> merged[|merged| - 1].start <= r.start
    ensures RangesContain(AddRange(merged, r), p) <==> RangesContain(merged, p) || Contains(r, p)
    ensures SplitsRange(AddRange(merged, r), p) <==> SplitsRange(merged, p) || Inside(r, p)
  {
    if merged != [] && r.start < merged[|merged| - 1].end {
      var front, last := merged[..|merged| - 1], merged[|merged| - 1];
      assert merged == front + [last];
      CoverConcat(front, last, p);
      CoverConcat(front, Widen(last, r), p);
    } else {
      CoverConcat(merged, r, p);
    }
  }

  ghost predicate HasEdges(ranges: seq<Range>, m: Range) {
    (exists r :: r in ranges && r.start == m.start) && (exists r :: r in ranges && r.end == m.end)
  }

  lemma AddRangeEdges(merged: seq<Range>, done: seq<Range>, r: Range, m: Range)
    requires forall q :: q in merged ==> HasEdges(done, q)
    requires m in AddRange(merged, r)
    ensures HasEdges(done + [r], m)
  {
    assert forall q :: q in done || q == r ==> q in done + [r];
    assert r in done + [r];
    var n := |merged| - 1;
    if merged != [] && r.start < merged[n].end {
      assert HasEdges(done, merged[n]);
      assert m == Widen(merged[n], r) || m in merged;
    }
  }

  lemma AddRangeSeparate(merged: seq<Range>, r: Range)
    requires Separate(merged) && r.start < r.end
    requires merged != [] ==> merged[|merged| - 1].start <= r.start
    ensures Separate(AddRange(merged, r))
  {
    var out := AddRange(merged, r);
    forall i | 0 <= i < |out|
      ensures out[i].start < out[i].end
    {
      assert i < |merged| ==> merged[i] in merged;
    }
    forall i, j | 0 <= i < j < |out|
      ensures out[i].end <= out[j].start
    {
      assert out[i] == merged[i] && merged[|merged| - 1] in merged;
    }
  }

  lemma AddRangeStandsFor(merged: seq<Range>, done: seq<Range>, r: Range)
    requires NonEmpty(merged) && r.start < r.end
    requires merged != [] ==> merged[|merged| - 1].start <= r.start
    requires StandsFor(merged, done)
    ensures StandsFor(AddRange(merged, r), done + [r])
  {
    forall p: nat
      ensures RangesContain(AddRange(merged, r), p) <==> RangesContain(done + [r], p)
      ensures SplitsRange(AddRange(merged, r), p) <==> SplitsRange(done + [r], p)
    {
      AddRangeCovers(merged, r, p);
      CoverConcat(done, r, p);
    }
    forall m | m in AddRange(merged, r)
      ensures HasEdges(done + [r], m)
    {
      AddRangeEdges(merged, done, r, m);
    }
  }

  lemma AddRangeMerges(merged: seq<Range>, done: seq<Range>, r: Range)
    requires Merged(merged, done) && r.start < r.end
    requires done != [] ==> done[|done| - 1].start <= r.start
    ensures Merged(AddRange(merged, r), done + [r])
  {
    AddRangeSeparate(merged, r);
    AddRangeStandsFor(merged, done, r);
    hide StandsFor;
    hide Separate;
  }

  /** The end of `computeForbiddenRanges`: sort what the scanners found and merge overlaps. */
  method MergeRanges(found: seq<Range>) returns (merged: seq<Range>)
    requires NonEmpty(found)
    ensures Separate(merged) && StandsFor(merged, found)
  {
    var ranges := SortByStart(found);
    SortSorts(found);
    merged := [];
    MergedNothing();
    var k := 0;
    assert ranges[..0] == [];
    while k < |ranges|
      invariant 0 <= k <= |ranges|
      invariant Merged(merged, ranges[..k])
    {
      assert ranges[k] in found;
      merged := AddFound(merged, ranges[k], ranges[..k]);
      assert ranges[..k + 1] == ranges[..k] + [ranges[k]];
      k := k + 1;
      hide Merged;
    }
    assert ranges[..k] == ranges;
    SameMembersStandFor(merged, ranges, found);
  }

  lemma MergedNothing()
    ensures Merged([], [])
  {
    assert forall p :: !RangesContain([], p) && !SplitsRange([], p);
  }

  /** The loop body: widen the last range or push a new one. */
  method AddFound(merged: seq<Range>, r: Range, ghost done: seq<Range>) returns (out: seq<Range>)
    requires Merged(merged, done) && r.start < r.end
    requires done != [] ==> done[|done| - 1].start <= r.start
    ensures Merged(out, done + [r])
  {
    AddRangeMerges(merged, done, r);
    hide Merged;
    var n := |merged| - 1;
    if |merged| > 0 && r.start < merged[n].end {
      out := merged[..n] + [Range(merged[n].start, if r.end > merged[n].end then r.end else merged[n].end)];
    } else {
      out := merged + [r];
    }
  }

  lemma SameMembersStandFor(merged: seq<Range>, a: seq<Range>, b: seq<Range>)
    requires StandsFor(merged, a) && forall r :: r in a <==> r in b
    ensures StandsFor(merged, b)
  {
    assert forall p :: RangesContain(a, p) <==> RangesContain(b, p);
    assert forall p :: SplitsRange(a, p) <==> SplitsRange(b, p);
  }

  // ----- Finding a boundary -----

  /** 3 after a blank line, 2 after a sentence, 1 after a word, 0 elsewhere. */
  function BreakRank(body: string, i: nat): nat
    requires 1 <= i <= |body|
  {
    if i >= 2 && body[i - 1] == '\n' && body[i - 2] == '\n' then 3
    else if i >= 2 && body[i - 2] in ".?!" && IsSpace(body[i - 1]) then 2
    else if IsSpace(body[i - 1]) && (i == |body| || !IsSpace(body[i])) then 1
    else 0
  }

  /** The rank of `i` as a place to cut, 0 when a range forbids it. */
  function LegalRank(body: string, forbidden: seq<Range>, i: nat): nat
    requires 1 <= i <= |body|
  {
    if RangesContain(forbidden, i) then 0 else BreakRank(body, i)
  }

  datatype Candidate = Candidate(rank: nat, offset: nat)

  /** The window [lo, hi] walked downwards: the highest rank met, at its first meeting. */
  function BestBreak(body: string, forbidden: seq<Range>, lo: nat, hi: nat): (c: Candidate)
    requires 1 <= lo && hi <= |body|
    decreases hi + 1 - lo
  {
    if lo > hi then Candidate(0, hi)
    else
      var above := BestBreak(body, forbidden, lo + 1, hi);
      var rank := LegalRank(body, forbidden, lo);
      if rank > above.rank then Candidate(rank, lo) else above
  }

  /** Best by rank, then by nearness to the target; rank 0 means there is no candidate. */
  lemma {:induction false} BestBreakIsBest(body: string, forbidden: seq<Range>, lo: nat, hi: nat)
    requires 1 <= lo && hi <= |body|
    ensures var c := BestBreak(body, forbidden, lo, hi);
            && (c.rank > 0 ==> lo <= c.offset <= hi && c.rank == LegalRank(body, forbidden, c.offset))
            && (forall i :: lo <= i <= hi ==> LegalRank(body, forbidden, i) <= c.rank)
            && (forall i :: lo <= i <= hi && c.rank > 0 && i > c.offset ==> LegalRank(body, forbidden, i) < c.rank)
    decreases hi + 1 - lo
  {
    if lo <= hi {
      BestBreakIsBest(body, forbidden, lo + 1, hi);
    }
  }

  /** The first range that contains `p`, as `rangeAt` finds it. */
  function RangeAt(ranges: seq<Range>, p: nat): (r: Range)
    requires RangesContain(ranges, p)
    ensures r in ranges && Contains(r, p)
  {
    if Contains(ranges[0], p) then ranges[0] else RangeAt(ranges[1..], p)
  }

  function WindowStart(start: nat, target: nat): nat
    requires start <= target
  {
    var span := if target - start < 1 then 1 else target - start;
    if start + 1 > target - span / 10 then start + 1 else target - span / 10
  }

  function Boundary(body: string, start: nat, target: nat, forbidden: seq<Range>): (b: nat)
    requires start <= target <= |body|
    ensures b <= |body|
  {
    if RangesContain(forbidden, target) then
      var end := RangeAt(forbidden, target).end;
      if end < |body| then end else |body|
    else
      var best := BestBreak(body, forbidden, WindowStart(start, target), target);
      BestBreakIsBest(body, forbidden, WindowStart(start, target), target);
      if best.rank > 0 then best.offset else target
  }

  method FindRange(ranges: seq<Range>, p: nat) returns (at: int)
    ensures at < 0 <==> !RangesContain(ranges, p)
    ensures at >= 0 ==> at < |ranges| && ranges[at] == RangeAt(ranges, p)
  {
    var i := 0;
    assert ranges[0..] == ranges;
    while i < |ranges|
      invariant 0 <= i <= |ranges|
      invariant RangesContain(ranges, p) <==> RangesContain(ranges[i..], p)
      invariant RangesContain(ranges, p) ==> RangeAt(ranges, p) == RangeAt(ranges[i..], p)
    {
      if Contains(ranges[i], p) {
        assert ranges[i..][0] == ranges[i];
        assert ranges[i] in ranges[i..];
        return i;
      }
      RestContains(ranges[i..], p);
      assert ranges[i..][1..] == ranges[i + 1..];
      i := i + 1;
    }
    return -1;
  }

  lemma RestContains(ranges: seq<Range>, p: nat)
    requires ranges != [] && !Contains(ranges[0], p)
    ensures RangesContain(ranges, p) <==> RangesContain(ranges[1..], p)
  {
    assert ranges == [ranges[0]] + ranges[1..];
  }

  /** Candidates are met from the target downwards, so the first of the highest rank wins the sort. */
  method FindBoundary(body: string, start: nat, target: nat, forbidden: seq<Range>) returns (b: nat)
    requires start <= target <= |body|
    ensures b == Boundary(body, start, target, forbidden)
  {
    var containing := FindRange(forbidden, target);
    if containing >= 0 {
      return if forbidden[containing].end < |body| then forbidden[containing].end else |body|;
    }
    var span := if target - start < 1 then 1 else target - start;
    var windowStart := if start + 1 > target - span / 10 then start + 1 else target - span / 10;
    var best := Candidate(0, target);
    var i := target;
    while i >= windowStart
      invariant windowStart - 1 <= i <= target || i == target
      invariant best == BestBreak(body, forbidden, i + 1, target)
    {
      var at := FindRange(forbidden, i);
      var rank := if at >= 0 then 0 else BreakRank(body, i);
      if rank > best.rank {
        best := Candidate(rank, i);
      }
      i := i - 1;
    }
    if windowStart > target {
      assert BestBreak(body, forbidden, windowStart, target).rank == 0;
    }
    return if best.rank > 0 then best.offset else target;
  }

  lemma SeparateRangesDoNotShare(ranges: seq<Range>, r: Range, q: Range)
    requires Separate(ranges) && r in ranges && q in ranges
    ensures r == q || r.end <= q.start || q.end <= r.start
  {
  }

  /** A boundary never lies inside a forbidden range. */
  lemma BoundaryIsLegal(body: string, start: nat, target: nat, forbidden: seq<Range>)
    requires start <= target <= |body|
    requires Separate(forbidden) && forall r :: r in forbidden ==> r.end <= |body|
    ensures !SplitsRange(forbidden, Boundary(body, start, target, forbidden))
  {
    var b := Boundary(body, start, target, forbidden);
    if RangesContain(forbidden, target) {
      var r := RangeAt(forbidden, target);
      assert b == r.end;
      forall q | q in forbidden
        ensures !Inside(q, b)
      {
        SeparateRangesDoNotShare(forbidden, r, q);
      }
    } else {
      BestBreakIsBest(body, forbidden, WindowStart(start, target), target);
      assert !RangesContain(forbidden, b);
    }
  }

  /** Where the boundary can be: at or past a forbidden target's range, else in the window. */
  lemma BoundaryPlace(body: string, start: nat, target: nat, forbidden: seq<Range>)
    requires start <= target <= |body|
    ensures var b := Boundary(body, start, target, forbidden);
            if RangesContain(forbidden, target) then
              b == |body| || (b > target && exists r :: r in forbidden && r.end == b)
            else b == target || (start < b <= target && !RangesContain(forbidden, b))
  {
    if !RangesContain(forbidden, target) {
      BestBreakIsBest(body, forbidden, WindowStart(start, target), target);
    }
  }

  // ----- The chunk loop -----

  datatype Doc = Doc(body: string, off: seq<nat>, forbidden: seq<Range>)

  datatype Policy = Policy(size: nat, overlap: nat, minTrailing: int)

  datatype Slice = Slice(start: nat, end: nat, tokens: int)

  datatype ChunkSlice = ChunkSlice(index: nat, total: nat, slice: Slice)

  ghost predicate ValidDoc(d: Doc) {
    Offsets(d.off, |d.body|)
  }

  function Total(d: Doc): int {
    |d.off| - 1
  }

  /** A position before the end of the body lies in a token, and the next token starts after it. */
  lemma TokenOf(d: Doc, at: nat)
    requires ValidDoc(d) && at < |d.body|
    ensures var i := TokenIndexAt(d.off, at);
            i < Total(d) && d.off[i] <= at < d.off[i + 1] && forall k :: i < k < |d.off| ==> at < d.off[k] <= |d.body|
  {
    assert d.off[|d.off| - 1] == |d.body|;
  }

  predicate OnEdge(d: Doc, at: nat)
    requires |d.off| >= 1
  {
    d.off[TokenIndexAt(d.off, at)] == at
  }

  lemma EdgesAreOnEdge(d: Doc, k: nat)
    requires ValidDoc(d) && k < |d.off|
    ensures OnEdge(d, d.off[k]) && k <= TokenIndexAt(d.off, d.off[k])
  {
    assert k <= TokenIndexAt(d.off, d.off[k]);
  }

  /** What the loop knows about a chunk start whose target is short of the end. */
  ghost predicate Full(d: Doc, p: Policy, start: nat) {
    ValidDoc(d) && start < |d.body| && OnEdge(d, start) && TokenIndexAt(d.off, start) + p.size < Total(d)
  }

  function Target(d: Doc, p: Policy, start: nat): (t: nat)
    requires Full(d, p, start)
    ensures start <= t <= |d.body|
  {
    d.off[TokenIndexAt(d.off, start) + p.size]
  }

  /** The token a chunk ends at: the floored boundary, or one token on when that is no progress. */
  function EndToken(d: Doc, p: Policy, start: nat): (e: nat)
    requires Full(d, p, start)
    ensures TokenIndexAt(d.off, start) < e <= Total(d)
  {
    var s := TokenIndexAt(d.off, start);
    var e := TokenIndexAt(d.off, Boundary(d.body, start, Target(d, p, start), d.forbidden));
    if e <= s then (if s + 1 < Total(d) then s + 1 else Total(d)) else e
  }

  /** `overlap` tokens back from the end, but always at least one token on. */
  function NextToken(p: Policy, s: nat, e: nat): (n: nat)
    requires s < e
    ensures s < n <= e
  {
    if e - p.overlap <= s then s + 1 else e - p.overlap
  }

  function FirstSlice(d: Doc, p: Policy, start: nat): Slice
    requires Full(d, p, start)
  {
    var e := EndToken(d, p, start);
    Slice(start, if e == Total(d) then |d.body| else d.off[e], e - TokenIndexAt(d.off, start))
  }

  /** The chunks from `start` on, before the trailing merge. */
  function Walk(d: Doc, p: Policy, start: nat): seq<Slice>
    requires ValidDoc(d) && start <= |d.body| && OnEdge(d, start)
    decreases |d.body| - start
  {
    if start == |d.body| then []
    else
      TokenOf(d, start);
      var s := TokenIndexAt(d.off, start);
      if s + p.size >= Total(d) then [Slice(start, |d.body|, Total(d) - s)]
      else
        var n := NextToken(p, s, EndToken(d, p, start));
        if n >= Total(d) then [FirstSlice(d, p, start)]
        else
          EdgesAreOnEdge(d, n);
          [FirstSlice(d, p, start)] + Walk(d, p, d.off[n])
  }

  function TrailingMerge(d: Doc, p: Policy, out: seq<Slice>): seq<Slice>
    requires |d.off| >= 1
  {
    var n := |out|;
    if n < 2 || out[n - 1].tokens >= p.minTrailing then out
    else if out[n - 1].end <= out[n - 2].end then out[..n - 1]
    else out[..n - 2] + [MergeOf(d, out[n - 2], out[n - 1])]
  }

  function Chunks(d: Doc, p: Policy): seq<Slice>
    requires ValidDoc(d)
  {
    if |d.body| == 0 then []
    else if Total(d) <= p.size then [Slice(0, |d.body|, Total(d))]
    else
      EdgesAreOnEdge(d, 0);
      TrailingMerge(d, p, Walk(d, p, 0))
  }

  function Numbered(out: seq<Slice>): seq<ChunkSlice> {
    seq(|out|, i requires 0 <= i < |out| => ChunkSlice(i, |out|, out[i]))
  }

  method Chunk(body: string, off: seq<nat>, found: seq<Range>, p: Policy) returns (chunks: seq<ChunkSlice>)
    requires Offsets(off, |body|) && NonEmpty(found)
    ensures exists forbidden ::
      && Separate(forbidden) && StandsFor(forbidden, found)
      && chunks == Numbered(Chunks(Doc(body, off, forbidden), p))
  {
    var forbidden := MergeRanges(found);
    var d := Doc(body, off, forbidden);
    var out := Slices(d, p);
    chunks := Numbered(out);
  }

  /** One pass of the loop body, when the target is short of the end. */
  method CutOne(d: Doc, p: Policy, start: nat, startTokenIdx: nat) returns (slice: Slice, next: nat)
    requires Full(d, p, start) && startTokenIdx == TokenIndexAt(d.off, start)
    ensures slice == FirstSlice(d, p, start)
    ensures next == NextToken(p, startTokenIdx, EndToken(d, p, start))
  {
    assert start <= Target(d, p, start) <= |d.body|;
    hide Boundary;
    hide Monotone;
    var totalTokens := |d.off| - 1;
    var boundary := FindBoundary(d.body, start, d.off[startTokenIdx + p.size], d.forbidden);
    var endTokenIdx := TokenIndexAtCharOffset(d.off, boundary);
    if endTokenIdx <= startTokenIdx {
      endTokenIdx := if startTokenIdx + 1 < totalTokens then startTokenIdx + 1 else totalTokens;
    }
    var effective := if endTokenIdx == totalTokens then |d.body| else d.off[endTokenIdx];
    slice := Slice(start, effective, endTokenIdx - startTokenIdx);
    next := if endTokenIdx - p.overlap <= startTokenIdx then startTokenIdx + 1 else endTokenIdx - p.overlap;
  }

  method Slices(d: Doc, p: Policy) returns (out: seq<Slice>)
    requires ValidDoc(d)
    ensures out == Chunks(d, p)
  {
    if |d.body| == 0 {
      return [];
    }
    var totalTokens := |d.off| - 1;
    if totalTokens <= p.size {
      return [Slice(0, |d.body|, totalTokens)];
    }
    EdgesAreOnEdge(d, 0);
    out := CutAll(d, p);
    out := MergeTrailing(d, p, out);
  }

  /** The main loop. */
  method CutAll(d: Doc, p: Policy) returns (out: seq<Slice>)
    requires ValidDoc(d) && OnEdge(d, 0)
    ensures out == Walk(d, p, 0)
  {
    hide Monotone;
    hide OnEdge;
    hide NextToken;
    hide Walk;
    hide FirstSlice;
    hide EndToken;
    var totalTokens := |d.off| - 1;
    out := [];
    var start := 0;
    ghost var goal := Walk(d, p, 0);
    while start < |d.body|
      invariant start <= |d.body| && OnEdge(d, start)
      invariant goal == out + Walk(d, p, start)
      decreases |d.body| - start
    {
      WalkStep(d, p, start);
      var startTokenIdx := TokenIndexAtCharOffset(d.off, start);
      if startTokenIdx + p.size >= totalTokens {
        out := out + [Slice(start, |d.body|, totalTokens - startTokenIdx)];
        return;
      }
      var slice, next := CutOne(d, p, start, startTokenIdx);
      if next >= totalTokens {
        out := out + [slice];
        return;
      }
      start := d.off[next];
      PushThenRest(out, slice, Walk(d, p, start));
      out := out + [slice];
    }
    WalkEnd(d, p);
  }

  method MergeTrailing(d: Doc, p: Policy, out: seq<Slice>) returns (merged: seq<Slice>)
    requires ValidDoc(d)
    ensures merged == TrailingMerge(d, p, out)
  {
    merged := out;
    if |merged| >= 2 {
      var last := merged[|merged| - 1];
      if last.tokens < p.minTrailing {
        var prev := merged[|merged| - 2];
        if last.end <= prev.end {
          merged := merged[..|merged| - 1];
        } else {
          var prevStart: int := TokenIndexAtCharOffset(d.off, prev.start);
          var newEnd: int := TokenIndexAtCharOffset(d.off, last.end);
          merged := merged[..|merged| - 2] + [Slice(prev.start, last.end, newEnd - prevStart)];
        }
      }
    }
  }

  lemma WalkStep(d: Doc, p: Policy, start: nat)
    requires ValidDoc(d) && start < |d.body| && OnEdge(d, start)
    ensures var s := TokenIndexAt(d.off, start);
            && s < Total(d)
            && (s + p.size >= Total(d) ==> Walk(d, p, start) == [Slice(start, |d.body|, Total(d) - s)])
            && (s + p.size < Total(d) ==>
                  var n := NextToken(p, s, EndToken(d, p, start));
                  if n >= Total(d) then Walk(d, p, start) == [FirstSlice(d, p, start)]
                  else d.off[n] > start && OnEdge(d, d.off[n]) && d.off[n] <= |d.body|
                       && Walk(d, p, start) == [FirstSlice(d, p, start)] + Walk(d, p, d.off[n]))
  {
    TokenOf(d, start);
    forall n | 0 <= n < |d.off| {
      EdgesAreOnEdge(d, n);
    }
  }

  lemma PushThenRest(out: seq<Slice>, slice: Slice, rest: seq<Slice>)
    ensures out + ([slice] + rest) == (out + [slice]) + rest
    ensures rest == [] ==> out + ([slice] + rest) == out + [slice]
  {
  }

  lemma WalkEnd(d: Doc, p: Policy)
    requires ValidDoc(d) && OnEdge(d, |d.body|)
    ensures Walk(d, p, |d.body|) == []
  {
  }

  // ----- The chunks cover the body -----

  /** Starts at `from`, ends at the end, never empty, each start in or right after the chunk before. */
  ghost predicate Chain(out: seq<Slice>, from: nat, length: nat) {
    && out != [] && out[0].start == from && out[|out| - 1].end == length
    && (forall i :: 0 <= i < |out| ==> out[i].start < out[i].end <= length)
    && (forall i :: 0 <= i < |out| - 1 ==> out[i].start < out[i + 1].start <= out[i].end)
  }

  lemma ChainCons(first: Slice, rest: seq<Slice>, length: nat)
    requires rest != [] && Chain(rest, rest[0].start, length)
    requires first.start < rest[0].start <= first.end <= length
    ensures Chain([first] + rest, first.start, length)
  {
    var out := [first] + rest;
    forall i | 0 <= i < |out| - 1
      ensures out[i].start < out[i + 1].start <= out[i].end
    {
      if i > 0 {
        assert out[i] == rest[i - 1] && out[i + 1] == rest[i];
      }
    }
  }

  lemma {:induction false} WalkChains(d: Doc, p: Policy, start: nat)
    requires ValidDoc(d) && start < |d.body| && OnEdge(d, start)
    ensures Chain(Walk(d, p, start), start, |d.body|)
    decreases |d.body| - start
  {
    TokenOf(d, start);
    var s := TokenIndexAt(d.off, start);
    if s + p.size < Total(d) {
      var e := EndToken(d, p, start);
      var n := NextToken(p, s, e);
      if n < Total(d) {
        EdgesAreOnEdge(d, n);
        if d.off[n] < |d.body| {
          WalkChains(d, p, d.off[n]);
          ChainCons(FirstSlice(d, p, start), Walk(d, p, d.off[n]), |d.body|);
        }
      }
    }
  }

  lemma MergeKeepsChain(d: Doc, p: Policy, out: seq<Slice>)
    requires ValidDoc(d) && Chain(out, 0, |d.body|)
    ensures Chain(TrailingMerge(d, p, out), 0, |d.body|)
  {
  }

  /** What the chunks' characters are, each cut off where the next chunk starts. */
  function Stitch(body: string, out: seq<Slice>): string
    requires forall i :: 0 <= i < |out| ==> out[i].start <= out[i].end <= |body|
    requires forall i :: 0 <= i < |out| - 1 ==> out[i].start <= out[i + 1].start <= out[i].end
  {
    if out == [] then ""
    else if |out| == 1 then body[out[0].start..out[0].end]
    else body[out[0].start..out[0].end][..out[1].start - out[0].start] + Stitch(body, out[1..])
  }

  lemma {:induction false} ChainStitches(body: string, out: seq<Slice>, from: nat)
    requires from <= |body| && Chain(out, from, |body|)
    ensures Stitch(body, out) == body[from..]
    decreases |out|
  {
    if |out| > 1 {
      var next := out[1].start;
      assert Chain(out[1..], next, |body|);
      ChainStitches(body, out[1..], next);
      assert body[from..out[0].end][..next - from] == body[from..next];
      assert body[from..] == body[from..next] + body[next..];
    }
  }

  /** For any offset table, size and overlap the chunks cover the body and rebuild it exactly. */
  lemma ChunksRebuildBody(d: Doc, p: Policy)
    requires ValidDoc(d) && d.body != ""
    ensures Chain(Chunks(d, p), 0, |d.body|)
    ensures Stitch(d.body, Chunks(d, p)) == d.body
  {
    if Total(d) > p.size {
      EdgesAreOnEdge(d, 0);
      WalkChains(d, p, 0);
      MergeKeepsChain(d, p, Walk(d, p, 0));
    }
    ChainStitches(d.body, Chunks(d, p), 0);
  }

  // ----- Chunk ends and forbidden ranges -----

  ghost predicate IsTokenEdge(d: Doc, at: nat) {
    at in d.off
  }

  /** Some token edge lies strictly inside the range. */
  ghost predicate HoldsEdge(d: Doc, r: Range) {
    exists k :: 0 <= k < |d.off| && Inside(r, d.off[k])
  }

  /** No token edge lies within the range, or the range itself starts and ends on one. */
  ghost predicate TokenAligned(d: Doc, r: Range) {
    HoldsEdge(d, r) ==> IsTokenEdge(d, r.start) && IsTokenEdge(d, r.end)
  }

  /** The search of this size from token `s` stops before the next token, so the progress guard takes over. */
  ghost predicate SearchFallsBack(d: Doc, s: nat, size: nat)
    requires ValidDoc(d)
  {
    s + size < Total(d) && Boundary(d.body, d.off[s], d.off[s + size], d.forbidden) < d.off[s + 1]
  }

  /**
   * A range with token edges inside ends on one; it starts on one too, unless no search of this size falls
   * back into the token it starts in.
   */
  ghost predicate SafeAt(d: Doc, r: Range, size: nat)
    requires ValidDoc(d)
  {
    HoldsEdge(d, r) ==>
      && IsTokenEdge(d, r.end)
      && (IsTokenEdge(d, r.start) || !SearchFallsBack(d, TokenIndexAt(d.off, r.start), size))
  }

  ghost predicate RangesInBody(d: Doc) {
    Separate(d.forbidden) && forall r :: r in d.forbidden ==> r.end <= |d.body|
  }

  /** Flooring to a token edge does not move a legal boundary into a range that ends on one. */
  lemma FloorIsLegal(d: Doc, boundary: nat, r: Range)
    requires ValidDoc(d) && !Inside(r, boundary) && (HoldsEdge(d, r) ==> IsTokenEdge(d, r.end))
    ensures !Inside(r, d.off[TokenIndexAt(d.off, boundary)])
  {
    var e := TokenIndexAt(d.off, boundary);
    assert d.off[e] <= boundary;
    if IsTokenEdge(d, r.end) && r.end <= boundary {
      var k :| 0 <= k < |d.off| && d.off[k] == r.end;
      assert k <= e;
    }
  }

  /** Between a start on a token edge and the next edge lies no other edge. */
  lemma StartToken(d: Doc, start: nat, at: nat)
    requires ValidDoc(d) && start < |d.body| && OnEdge(d, start)
    requires start < at < d.off[TokenIndexAt(d.off, start) + 1]
    ensures TokenIndexAt(d.off, at) == TokenIndexAt(d.off, start) && !IsTokenEdge(d, at)
  {
    var s := TokenIndexAt(d.off, start);
    forall k | 0 <= k < |d.off|
      ensures d.off[k] != at
    {
      assert if k <= s then d.off[k] <= d.off[s] else d.off[s + 1] <= d.off[k];
    }
  }

  /** The search does not stop short of a range that starts at or before its start. */
  lemma BoundaryPassesRange(body: string, start: nat, target: nat, forbidden: seq<Range>, r: Range)
    requires start <= target <= |body| && Separate(forbidden)
    requires r in forbidden && r.start <= start && r.end <= |body|
    ensures r.end <= Boundary(body, start, target, forbidden)
  {
    BoundaryPlace(body, start, target, forbidden);
    var b := Boundary(body, start, target, forbidden);
    if RangesContain(forbidden, target) {
      SeparateRangesDoNotShare(forbidden, r, RangeAt(forbidden, target));
    } else {
      assert !Contains(r, b);
    }
  }

  /** The guard's end, one token on, is not inside a safe range either. */
  lemma GuardIsLegal(d: Doc, p: Policy, start: nat, r: Range)
    requires Full(d, p, start) && RangesInBody(d) && r in d.forbidden && SafeAt(d, r, p.size)
    requires var s := TokenIndexAt(d.off, start); Boundary(d.body, start, Target(d, p, start), d.forbidden) < d.off[s + 1]
    ensures !Inside(r, d.off[TokenIndexAt(d.off, start) + 1])
  {
    var s := TokenIndexAt(d.off, start);
    if r.start <= start {
      BoundaryPassesRange(d.body, start, Target(d, p, start), d.forbidden, r);
    } else if r.start < d.off[s + 1] {
      StartToken(d, start, r.start);
      assert SearchFallsBack(d, s, p.size);
      assert Inside(r, d.off[s + 1]) ==> HoldsEdge(d, r);
    }
  }

  lemma EndIsLegal(d: Doc, p: Policy, start: nat, r: Range)
    requires Full(d, p, start) && RangesInBody(d) && r in d.forbidden && SafeAt(d, r, p.size)
    ensures !Inside(r, FirstSlice(d, p, start).end)
  {
    var s := TokenIndexAt(d.off, start);
    var b := Boundary(d.body, start, Target(d, p, start), d.forbidden);
    BoundaryIsLegal(d.body, start, Target(d, p, start), d.forbidden);
    if TokenIndexAt(d.off, b) <= s {
      assert b < d.off[s + 1];
      GuardIsLegal(d, p, start, r);
    } else {
      FloorIsLegal(d, b, r);
    }
  }

  ghost predicate EndsAvoid(out: seq<Slice>, r: Range) {
    forall i :: 0 <= i < |out| ==> !Inside(r, out[i].end)
  }

  lemma {:induction false} WalkAvoids(d: Doc, p: Policy, start: nat, r: Range)
    requires ValidDoc(d) && start <= |d.body| && OnEdge(d, start)
    requires RangesInBody(d) && r in d.forbidden && SafeAt(d, r, p.size)
    ensures EndsAvoid(Walk(d, p, start), r)
    decreases |d.body| - start
  {
    if start < |d.body| {
      WalkStep(d, p, start);
      var s := TokenIndexAt(d.off, start);
      if s + p.size < Total(d) {
        EndIsLegal(d, p, start, r);
        var n := NextToken(p, s, EndToken(d, p, start));
        if n < Total(d) {
          WalkAvoids(d, p, d.off[n], r);
        }
      }
      hide FirstSlice;
      hide Walk;
    } else {
      WalkEnd(d, p);
    }
  }

  /** No chunk ends inside a range that is safe at the policy's size: flooring, guard and trailing merge included. */
  lemma ChunksNeverSplitSafe(d: Doc, p: Policy, r: Range)
    requires ValidDoc(d) && RangesInBody(d) && r in d.forbidden && SafeAt(d, r, p.size)
    ensures EndsAvoid(Chunks(d, p), r)
  {
    if |d.body| > 0 && Total(d) > p.size {
      EdgesAreOnEdge(d, 0);
      WalkAvoids(d, p, 0, r);
      MergeKeepsEnds(d, p, Walk(d, p, 0), r);
      hide Walk;
      hide TrailingMerge;
    }
  }

  /** In particular, no policy at all ends a chunk inside a token-aligned range. */
  lemma ChunksNeverSplitAligned(d: Doc, p: Policy, r: Range)
    requires ValidDoc(d) && RangesInBody(d) && r in d.forbidden && TokenAligned(d, r)
    ensures EndsAvoid(Chunks(d, p), r)
  {
    ChunksNeverSplitSafe(d, p, r);
  }

  /** The merge only drops ends. */
  lemma MergeKeepsEnds(d: Doc, p: Policy, out: seq<Slice>, r: Range)
    requires |d.off| >= 1 && EndsAvoid(out, r)
    ensures EndsAvoid(TrailingMerge(d, p, out), r)
  {
  }

  /** A range that ends within a token, with a token edge inside, is split by some chunk size. */
  lemma UnalignedEndIsSplit(d: Doc, r: Range, k: nat) returns (p: Policy)
    requires ValidDoc(d) && RangesInBody(d) && r in d.forbidden
    requires k < |d.off| && Inside(r, d.off[k]) && !IsTokenEdge(d, r.end)
    ensures p.overlap == 0 && p.minTrailing == 0 && p.size >= 1
    ensures !EndsAvoid(Chunks(d, p), r)
  {
    var f := TokenIndexAt(d.off, r.end);
    assert k <= f && d.off[k] <= d.off[f] <= r.end && d.off[f] in d.off;
    assert Inside(r, d.off[f]);
    EdgesAreOnEdge(d, 0);
    TokenOf(d, 0);
    var s := TokenIndexAt(d.off, 0);
    assert s < f;
    p := Policy(f - s, 0, 0);
    FirstCutHitsTheRange(d, p, r, s, f);
    WalkStep(d, p, 0);
    UnmergedEnd(d, p, r, FirstSlice(d, p, 0));
  }

  lemma FirstCutHitsTheRange(d: Doc, p: Policy, r: Range, s: nat, f: nat)
    requires ValidDoc(d) && RangesInBody(d) && r in d.forbidden && d.body != ""
    requires s == TokenIndexAt(d.off, 0) && s < f < Total(d) && p.size == f - s
    requires f == TokenIndexAt(d.off, r.end) && Inside(r, d.off[f])
    requires Full(d, p, 0)
    ensures FirstSlice(d, p, 0).end == d.off[f]
  {
    assert Contains(r, d.off[f]);
    var q := RangeAt(d.forbidden, d.off[f]);
    SeparateRangesDoNotShare(d.forbidden, r, q);
    assert Boundary(d.body, 0, d.off[f], d.forbidden) == r.end;
  }

  lemma {:induction false} SizesArePositive(d: Doc, p: Policy, start: nat)
    requires ValidDoc(d) && start <= |d.body| && OnEdge(d, start)
    ensures forall i :: 0 <= i < |Walk(d, p, start)| ==> Walk(d, p, start)[i].tokens >= 1
    decreases |d.body| - start
  {
    if start < |d.body| {
      WalkStep(d, p, start);
      var s := TokenIndexAt(d.off, start);
      if s + p.size < Total(d) {
        var n := NextToken(p, s, EndToken(d, p, start));
        if n < Total(d) {
          SizesArePositive(d, p, d.off[n]);
        }
      }
    }
  }

  /** With an overlap of the whole body every token edge starts a chunk, until the last chunk is reached. */
  lemma {:induction false} EveryTokenStartsAChunk(d: Doc, p: Policy, start: nat, s: nat)
    requires ValidDoc(d) && start < |d.body| && OnEdge(d, start)
    requires Total(d) <= p.overlap && TokenIndexAt(d.off, start) <= s && s + p.size < Total(d)
    requires s == TokenIndexAt(d.off, d.off[s])
    ensures Full(d, p, d.off[s]) && FirstSlice(d, p, d.off[s]) in Walk(d, p, start)
    decreases |d.body| - start
  {
    WalkStep(d, p, start);
    var i := TokenIndexAt(d.off, start);
    hide FirstSlice;
    hide EndToken;
    if i == s {
      assert start == d.off[s];
    } else {
      assert d.off[i + 1] <= d.off[s] < d.off[s + 1] <= |d.body|;
      EveryTokenStartsAChunk(d, p, d.off[i + 1], s);
    }
  }

  /** A range that starts within a token is split as soon as a search falls back into that token. */
  lemma UnalignedStartIsSplit(d: Doc, r: Range, size: nat) returns (p: Policy)
    requires ValidDoc(d) && RangesInBody(d) && r in d.forbidden
    requires HoldsEdge(d, r) && !IsTokenEdge(d, r.start)
    requires SearchFallsBack(d, TokenIndexAt(d.off, r.start), size)
    ensures p.size == size && p.minTrailing == 0
    ensures !EndsAvoid(Chunks(d, p), r)
  {
    var s := TokenIndexAt(d.off, r.start);
    p := Policy(size, Total(d), 0);
    var k :| 0 <= k < |d.off| && Inside(r, d.off[k]);
    assert d.off[s] <= r.start < d.off[s + 1] <= d.off[k];
    EdgesAreOnEdge(d, 0);
    TokenOf(d, 0);
    assert d.off[0] <= r.start;
    EveryTokenStartsAChunk(d, p, 0, s);
    GuardTakesOver(d, p, d.off[s]);
    hide FirstSlice;
    hide Boundary;
    hide EndToken;
    UnmergedEnd(d, p, r, FirstSlice(d, p, d.off[s]));
  }

  /** Without a trailing merge every end of the walk is an end of a chunk. */
  lemma UnmergedEnd(d: Doc, p: Policy, r: Range, slice: Slice)
    requires ValidDoc(d) && d.body != "" && p.size < Total(d) && p.minTrailing == 0
    requires OnEdge(d, 0) && slice in Walk(d, p, 0) && Inside(r, slice.end)
    ensures !EndsAvoid(Chunks(d, p), r)
  {
    SizesArePositive(d, p, 0);
    var out := Walk(d, p, 0);
    assert TrailingMerge(d, p, out) == out;
    var i :| 0 <= i < |out| && out[i] == slice;
    hide Walk;
    assert Inside(r, out[i].end);
  }

  lemma GuardTakesOver(d: Doc, p: Policy, start: nat)
    requires Full(d, p, start) && SearchFallsBack(d, TokenIndexAt(d.off, start), p.size)
    ensures FirstSlice(d, p, start).end == d.off[TokenIndexAt(d.off, start) + 1]
  {
    hide Boundary;
  }

  /** A search of size 0 looks nowhere and falls back whatever the text. */
  lemma EmptySearchFallsBack(d: Doc, r: Range)
    requires ValidDoc(d) && RangesInBody(d) && r in d.forbidden
    requires HoldsEdge(d, r) && !IsTokenEdge(d, r.start)
    ensures SearchFallsBack(d, TokenIndexAt(d.off, r.start), 0)
  {
    var s := TokenIndexAt(d.off, r.start);
    var k :| 0 <= k < |d.off| && Inside(r, d.off[k]);
    assert d.off[s] != r.start;
    assert d.off[s] < r.start < d.off[s + 1] <= d.off[k];
    BoundaryPlace(d.body, d.off[s], d.off[s], d.forbidden);
    if RangesContain(d.forbidden, d.off[s]) {
      SeparateRangesDoNotShare(d.forbidden, r, RangeAt(d.forbidden, d.off[s]));
    }
  }

  /** For one range and all policies from size 0 or from size 1 on: never split exactly when safe at every size. */
  lemma RangeNeverSplitIff(d: Doc, r: Range, least: nat)
    requires ValidDoc(d) && RangesInBody(d) && r in d.forbidden && least <= 1
    ensures (forall p: Policy :: p.size >= least ==> EndsAvoid(Chunks(d, p), r))
            <==> forall size: nat :: size >= least ==> SafeAt(d, r, size)
  {
    forall p: Policy | SafeAt(d, r, p.size)
      ensures EndsAvoid(Chunks(d, p), r)
    {
      ChunksNeverSplitSafe(d, p, r);
    }
    forall size: nat | size >= least && !SafeAt(d, r, size)
      ensures exists p: Policy :: p.size >= least && !EndsAvoid(Chunks(d, p), r)
    {
      if IsTokenEdge(d, r.end) {
        var p := UnalignedStartIsSplit(d, r, size);
        assert p.size >= least;
      } else {
        var k :| 0 <= k < |d.off| && Inside(r, d.off[k]);
        var p := UnalignedEndIsSplit(d, r, k);
        assert p.size >= least;
      }
    }
  }

  /**
   * "Never split inside", exactly: no policy ever ends a chunk inside a range if and only if every range
   * that holds a token edge also starts and ends on one.
   */
  lemma NeverSplitsIff(d: Doc)
    requires ValidDoc(d) && RangesInBody(d)
    ensures (forall p, r :: r in d.forbidden ==> EndsAvoid(Chunks(d, p), r))
            <==> forall r :: r in d.forbidden ==> TokenAligned(d, r)
  {
    forall r | r in d.forbidden
      ensures (forall p: Policy :: EndsAvoid(Chunks(d, p), r)) <==> TokenAligned(d, r)
    {
      RangeNeverSplitIff(d, r, 0);
      assert TokenAligned(d, r) ==> forall size: nat :: SafeAt(d, r, size);
      if !TokenAligned(d, r) {
        if !IsTokenEdge(d, r.start) {
          EmptySearchFallsBack(d, r);
        }
        assert !SafeAt(d, r, 0);
      }
    }
  }

  /**
   * The same for the sizes that make sense: a range that starts within a token is then still safe, as long
   * as it ends on an edge and no search falls back into its first token.
   */
  lemma NeverSplitsFromSizeOneIff(d: Doc)
    requires ValidDoc(d) && RangesInBody(d)
    ensures (forall p: Policy, r :: p.size >= 1 && r in d.forbidden ==> EndsAvoid(Chunks(d, p), r))
            <==> forall size: nat, r :: size >= 1 && r in d.forbidden ==> SafeAt(d, r, size)
  {
    forall r | r in d.forbidden
      ensures (forall p: Policy :: p.size >= 1 ==> EndsAvoid(Chunks(d, p), r))
              <==> forall size: nat :: size >= 1 ==> SafeAt(d, r, size)
    {
      RangeNeverSplitIff(d, r, 1);
    }
  }

  const SAMPLE_BODY := "aaaaaaaaaaaaaaaaaaaaaaaaaaaaaaaaaaaa x`b`aaaaaaaaa"

  /**
   * An end on an edge alone is not enough: the two-token search of this document stops before the word that
   * runs into the code span, floors back to 0, and the guard ends the chunk at 39, inside the span.
   */
  lemma AlignedEndIsNotEnough() returns (d: Doc, r: Range, p: Policy)
    ensures ValidDoc(d) && RangesInBody(d) && r in d.forbidden && p.size >= 1
    ensures IsTokenEdge(d, r.end) && !IsTokenEdge(d, r.start)
    ensures !EndsAvoid(Chunks(d, p), r)
  {
    r := Range(38, 41);
    d := Doc(SAMPLE_BODY, [0, 39, 41, 50], [r]);
    assert |SAMPLE_BODY| == 50;
    assert Inside(r, d.off[1]);
    assert TokenIndexAt(d.off, 38) == 0;
    SampleSearch(d.forbidden);
    p := UnalignedStartIsSplit(d, r, 2);
  }

  lemma SampleSearch(forbidden: seq<Range>)
    requires forbidden == [Range(38, 41)]
    ensures Boundary(SAMPLE_BODY, 0, 41, forbidden) == 37
  {
    var body := SAMPLE_BODY;
    assert body[36] == ' ' && body[37] == 'x' && body[39] == 'b' && body[40] == '`';
    assert !RangesContain(forbidden, 41) && !RangesContain(forbidden, 37);
    assert Contains(forbidden[0], 38) && Contains(forbidden[0], 39) && Contains(forbidden[0], 40);
    assert LegalRank(body, forbidden, 37) == 1;
    assert forall i :: 38 <= i <= 41 ==> LegalRank(body, forbidden, i) == 0;
    assert WindowStart(0, 41) == 37;
    BestBreakIsBest(body, forbidden, 37, 41);
  }

  // ----- Token counts and overlap -----

  /** The place this chunk aims for is the end of the body or outside every forbidden range. */
  ghost predicate FreeTarget(d: Doc, p: Policy, slice: Slice)
    requires |d.off| >= 1
  {
    var t := TokenIndexAt(d.off, slice.start) + p.size;
    t >= Total(d) || !RangesContain(d.forbidden, d.off[t])
  }

  ghost predicate SliceCounts(d: Doc, p: Policy, slice: Slice)
    requires |d.off| >= 1
  {
    && slice.tokens == TokenIndexAt(d.off, slice.end) - TokenIndexAt(d.off, slice.start)
    && slice.tokens >= 1
    && (p.size >= 1 && FreeTarget(d, p, slice) ==> slice.tokens <= p.size)
  }

  /** Tokens that two neighbouring chunks have in common. */
  function Shared(d: Doc, a: Slice, b: Slice): int
    requires |d.off| >= 1
  {
    TokenIndexAt(d.off, a.end) - TokenIndexAt(d.off, b.start)
  }

  ghost predicate Neighbours(d: Doc, p: Policy, a: Slice, b: Slice)
    requires |d.off| >= 1
  {
    if a.tokens > p.overlap then Shared(d, a, b) == p.overlap else Shared(d, a, b) == a.tokens - 1
  }

  lemma StrictEdges(d: Doc, k: nat)
    requires ValidDoc(d) && StrictlyIncreasing(d.off) && k < |d.off|
    ensures TokenIndexAt(d.off, d.off[k]) == k
  {
    assert k <= TokenIndexAt(d.off, d.off[k]);
  }

  lemma FirstSliceCounts(d: Doc, p: Policy, start: nat)
    requires Full(d, p, start) && StrictlyIncreasing(d.off)
    ensures SliceCounts(d, p, FirstSlice(d, p, start))
    ensures TokenIndexAt(d.off, FirstSlice(d, p, start).end) == EndToken(d, p, start)
  {
    var s := TokenIndexAt(d.off, start);
    var e := EndToken(d, p, start);
    StrictEdges(d, e);
    if !RangesContain(d.forbidden, Target(d, p, start)) {
      BoundaryPlace(d.body, start, Target(d, p, start), d.forbidden);
      var b := Boundary(d.body, start, Target(d, p, start), d.forbidden);
      assert b <= d.off[s + p.size];
      assert TokenIndexAt(d.off, b) <= s + p.size;
    }
  }

  lemma {:induction false} WalkCounts(d: Doc, p: Policy, start: nat)
    requires ValidDoc(d) && StrictlyIncreasing(d.off)
    requires start <= |d.body| && OnEdge(d, start)
    ensures var out := Walk(d, p, start);
            && (forall i :: 0 <= i < |out| ==> SliceCounts(d, p, out[i]))
            && (forall i :: 0 <= i < |out| - 1 ==> Neighbours(d, p, out[i], out[i + 1]))
            && (start < |d.body| ==> |out| > 0 && out[0].start == start)
    decreases |d.body| - start
  {
    if start < |d.body| {
      WalkStep(d, p, start);
      TokenOf(d, start);
      var s := TokenIndexAt(d.off, start);
      if s + p.size >= Total(d) {
        StrictEdges(d, Total(d));
      } else {
        FirstSliceCounts(d, p, start);
        var e := EndToken(d, p, start);
        var n := NextToken(p, s, e);
        if n < Total(d) {
          StrictEdges(d, n);
          WalkCounts(d, p, d.off[n]);
          NeighboursCons(d, p, FirstSlice(d, p, start), Walk(d, p, d.off[n]), s, e, n);
        }
      }
      hide Walk;
    }
  }

  lemma NeighboursCons(d: Doc, p: Policy, first: Slice, rest: seq<Slice>, s: nat, e: nat, n: nat)
    requires |d.off| >= 1 && s < e && n == NextToken(p, s, e)
    requires first.tokens == e - s && TokenIndexAt(d.off, first.end) == e
    requires rest != [] ==> TokenIndexAt(d.off, rest[0].start) == n
    requires SliceCounts(d, p, first)
    requires forall i :: 0 <= i < |rest| ==> SliceCounts(d, p, rest[i])
    requires forall i :: 0 <= i < |rest| - 1 ==> Neighbours(d, p, rest[i], rest[i + 1])
    ensures var out := [first] + rest;
            && (forall i :: 0 <= i < |out| ==> SliceCounts(d, p, out[i]))
            && (forall i :: 0 <= i < |out| - 1 ==> Neighbours(d, p, out[i], out[i + 1]))
  {
    var out := [first] + rest;
    forall i | 0 <= i < |out| - 1
      ensures Neighbours(d, p, out[i], out[i + 1])
    {
      if i > 0 {
        assert out[i] == rest[i - 1] && out[i + 1] == rest[i];
      }
    }
    hide SliceCounts;
  }

  /** The last chunk after a trailing merge: exact count, and at most the tail's tokens over the size. */
  lemma MergedTailCounts(d: Doc, p: Policy, prev: Slice, last: Slice)
    requires ValidDoc(d) && SliceCounts(d, p, prev) && SliceCounts(d, p, last)
    requires last.start <= prev.end <= last.end && last.tokens < p.minTrailing
    ensures var tokens := TokenIndexAt(d.off, last.end) - TokenIndexAt(d.off, prev.start);
            && tokens >= 1
            && (p.size >= 1 && FreeTarget(d, p, prev) ==> tokens <= p.size + p.minTrailing - 1)
  {
    IndexIsMonotone(d, last.start, prev.end);
    IndexIsMonotone(d, prev.end, last.end);
  }

  lemma IndexIsMonotone(d: Doc, a: nat, b: nat)
    requires ValidDoc(d) && a <= b
    ensures TokenIndexAt(d.off, a) <= TokenIndexAt(d.off, b)
  {
    assert d.off[TokenIndexAt(d.off, a)] <= a;
  }

  /** The bounds on one chunk of the final list; only the last may be a merged one. */
  ghost predicate FinalCounts(d: Doc, p: Policy, slice: Slice, isLast: bool)
    requires |d.off| >= 1
  {
    && slice.tokens == TokenIndexAt(d.off, slice.end) - TokenIndexAt(d.off, slice.start)
    && slice.tokens >= 1
    && (FreeTarget(d, p, slice) ==>
          slice.tokens <= p.size || (isLast && slice.tokens <= p.size + p.minTrailing - 1))
  }

  ghost predicate AllCounts(d: Doc, p: Policy, out: seq<Slice>)
    requires |d.off| >= 1
  {
    && (forall i :: 0 <= i < |out| ==> FinalCounts(d, p, out[i], i == |out| - 1))
    && (forall i :: 0 <= i < |out| - 1 ==> Neighbours(d, p, out[i], out[i + 1]))
  }

  ghost predicate PlainCounts(d: Doc, p: Policy, out: seq<Slice>)
    requires |d.off| >= 1
  {
    && (forall i :: 0 <= i < |out| ==> SliceCounts(d, p, out[i]))
    && (forall i :: 0 <= i < |out| - 1 ==> Neighbours(d, p, out[i], out[i + 1]))
  }

  lemma PlainIsFinal(d: Doc, p: Policy, out: seq<Slice>)
    requires |d.off| >= 1 && p.size >= 1 && PlainCounts(d, p, out)
    ensures AllCounts(d, p, out)
  {
    hide Neighbours;
  }

  lemma ReplaceLast(d: Doc, p: Policy, front: seq<Slice>, prev: Slice, merged: Slice)
    requires |d.off| >= 1 && p.size >= 1 && PlainCounts(d, p, front + [prev])
    requires merged.start == prev.start && FinalCounts(d, p, merged, true)
    ensures AllCounts(d, p, front + [merged])
  {
    var was, out := front + [prev], front + [merged];
    forall i | 0 <= i < |out|
      ensures FinalCounts(d, p, out[i], i == |out| - 1)
    {
      assert SliceCounts(d, p, was[i]);
      assert i < |front| ==> out[i] == was[i];
    }
    forall i | 0 <= i < |out| - 1
      ensures Neighbours(d, p, out[i], out[i + 1])
    {
      assert Neighbours(d, p, was[i], was[i + 1]);
      assert out[i] == was[i] && out[i + 1].start == was[i + 1].start;
    }
  }

  lemma PlainPrefix(d: Doc, p: Policy, out: seq<Slice>)
    requires |d.off| >= 1 && out != [] && PlainCounts(d, p, out)
    ensures PlainCounts(d, p, out[..|out| - 1])
  {
    hide SliceCounts;
    hide Neighbours;
  }

  lemma MergedTail(d: Doc, p: Policy, front: seq<Slice>, prev: Slice, last: Slice)
    requires ValidDoc(d) && p.size >= 1
    requires PlainCounts(d, p, front + [prev]) && SliceCounts(d, p, prev) && SliceCounts(d, p, last)
    requires last.start <= prev.end < last.end && last.tokens < p.minTrailing
    ensures AllCounts(d, p, front + [MergeOf(d, prev, last)])
  {
    MergedTailCounts(d, p, prev, last);
    assert FinalCounts(d, p, MergeOf(d, prev, last), true);
    hide PlainCounts;
    ReplaceLast(d, p, front, prev, MergeOf(d, prev, last));
  }

  function MergeOf(d: Doc, prev: Slice, last: Slice): Slice
    requires |d.off| >= 1
  {
    Slice(prev.start, last.end, TokenIndexAt(d.off, last.end) - TokenIndexAt(d.off, prev.start))
  }

  lemma PlainLastTwo(d: Doc, p: Policy, out: seq<Slice>)
    requires |d.off| >= 1 && |out| >= 2 && PlainCounts(d, p, out)
    ensures SliceCounts(d, p, out[|out| - 2]) && SliceCounts(d, p, out[|out| - 1])
  {
  }

  lemma MergeCounts(d: Doc, p: Policy, out: seq<Slice>)
    requires ValidDoc(d) && Chain(out, 0, |d.body|) && p.size >= 1
    requires PlainCounts(d, p, out)
    ensures AllCounts(d, p, TrailingMerge(d, p, out))
  {
    var n := |out|;
    assert n >= 2 ==> out[n - 1].start <= out[n - 2].end;
    hide AllCounts;
    hide PlainCounts;
    hide SliceCounts;
    hide Chain;
    hide Monotone;
    if n < 2 || out[n - 1].tokens >= p.minTrailing {
      PlainIsFinal(d, p, out);
    } else if out[n - 1].end <= out[n - 2].end {
      PlainPrefix(d, p, out);
      PlainIsFinal(d, p, out[..n - 1]);
    } else {
      PlainPrefix(d, p, out);
      PlainLastTwo(d, p, out);
      assert out[..n - 1] == out[..n - 2] + [out[n - 2]];
      MergedTail(d, p, out[..n - 2], out[n - 2], out[n - 1]);
    }
  }

  /** Every chunk's token bounds and every pair's overlap, trailing merge included. */
  lemma ChunkCounts(d: Doc, p: Policy)
    requires ValidDoc(d) && StrictlyIncreasing(d.off) && p.size >= 1
    ensures AllCounts(d, p, Chunks(d, p))
  {
    if |d.body| > 0 {
      EdgesAreOnEdge(d, 0);
      StrictEdges(d, 0);
      StrictEdges(d, Total(d));
      if Total(d) > p.size {
        WalkCounts(d, p, 0);
        WalkChains(d, p, 0);
        MergeCounts(d, p, Walk(d, p, 0));
        hide Walk;
        hide AllCounts;
      }
      hide TrailingMerge;
    }
  }
}
