/** Line-level diff behind the version-history viewer (lib/text-diff.ts). */
module LineDiff {
  datatype DiffKind = Context | Add | Remove

  datatype DiffChunk = DiffChunk(kind: DiffKind, text: string)

  datatype DiffResult = DiffResult(chunks: seq<DiffChunk>, oversized: bool)

  const MAX_DIFF_LINES := 5000

  // ----- Splitting a body into lines -----

  /** Index of the first '\n' at or after `i`, or |text| when there is none. */
  function LineEnd(text: string, i: nat): (e: nat)
    requires i <= |text|
    ensures i <= e <= |text|
    ensures '\n' !in text[i..e] && (e < |text| ==> text[e] == '\n')
    decreases |text| - i
  {
    if i == |text| || text[i] == '\n' then i else LineEnd(text, i + 1)
  }

  /** JavaScript's `text.split(/\r?\n/)`: cut at every LF, a CR right before it goes too. */
  function SplitLines(text: string): (lines: seq<string>)
    ensures lines != []
    decreases |text|
  {
    var e := LineEnd(text, 0);
    if e == |text| then [text]
    else [DropCarriageReturn(text[..e])] + SplitLines(text[e + 1..])
  }

  function DropCarriageReturn(line: string): string {
    if line != "" && line[|line| - 1] == '\r' then line[..|line| - 1] else line
  }

  /** `lines.join("\n")` */
  function JoinLines(lines: seq<string>): string {
    if lines == [] then "" else if |lines| == 1 then lines[0] else lines[0] + "\n" + JoinLines(lines[1..])
  }

  predicate CrBeforeLf(text: string) {
    exists i :: 0 <= i < |text| - 1 && text[i] == '\r' && text[i + 1] == '\n'
  }

  /** Splitting loses nothing from a body without CRLF: joining the lines rebuilds it. */
  lemma {:induction false} JoinSplitRoundTrip(text: string)
    requires !CrBeforeLf(text)
    ensures JoinLines(SplitLines(text)) == text
    decreases |text|
  {
    var e := LineEnd(text, 0);
    if e < |text| {
      var rest := text[e + 1..];
      assert e > 0 ==> text[e - 1] != '\r';
      assert !CrBeforeLf(rest) by {
        forall i | 0 <= i < |rest| - 1 && rest[i] == '\r'
          ensures rest[i + 1] != '\n'
        {
          assert text[i + e + 1] == '\r';
        }
      }
      JoinSplitRoundTrip(rest);
      assert text == text[..e] + "\n" + rest;
    }
  }

  /** The one body that splits into a single empty line is the empty body. */
  predicate LoneEmpty(lines: seq<string>) {
    lines == [""]
  }

  lemma OnlyEmptyTextSplitsToLoneEmpty(text: string)
    ensures LoneEmpty(SplitLines(text)) <==> text == ""
  {
    var e := LineEnd(text, 0);
    if e < |text| {
      assert |SplitLines(text)| >= 2;
    }
  }

  // ----- What an edit script means -----

  /** The lines left when the added ones are dropped. */
  function OldSide(script: seq<DiffChunk>): seq<string> {
    if script == [] then []
    else
      var rest := OldSide(script[..|script| - 1]);
      var last := script[|script| - 1];
      if last.kind == Add then rest else rest + [last.text]
  }

  /** The lines left when the removed ones are dropped. */
  function NewSide(script: seq<DiffChunk>): seq<string> {
    if script == [] then []
    else
      var rest := NewSide(script[..|script| - 1]);
      var last := script[|script| - 1];
      if last.kind == Remove then rest else rest + [last.text]
  }

  ghost predicate Replays(script: seq<DiffChunk>, a: seq<string>, b: seq<string>) {
    OldSide(script) == a && NewSide(script) == b
  }

  function Contexts(script: seq<DiffChunk>): nat {
    if script == [] then 0
    else Contexts(script[..|script| - 1]) + if script[|script| - 1].kind == Context then 1 else 0
  }

  /** Number of lines a script adds or removes. */
  function Edits(script: seq<DiffChunk>): nat {
    if script == [] then 0
    else Edits(script[..|script| - 1]) + if script[|script| - 1].kind == Context then 0 else 1
  }

  /** `c` picks, in order and from both sides, equal lines. */
  ghost predicate CommonSubsequence(c: seq<string>, a: seq<string>, b: seq<string>) {
    Subsequence(c, a) && Subsequence(c, b)
  }

  ghost predicate Subsequence(c: seq<string>, a: seq<string>) {
    if c == [] then true
    else if a == [] then false
    else if c[|c| - 1] == a[|a| - 1] && Subsequence(c[..|c| - 1], a[..|a| - 1]) then true
    else Subsequence(c, a[..|a| - 1])
  }

  /** No removal directly follows an addition: every hunk lists what goes before what comes. */
  ghost predicate RemovalsFirst(script: seq<DiffChunk>) {
    forall i :: 0 < i < |script| ==> !(script[i - 1].kind == Add && script[i].kind == Remove)
  }

  // ----- The longest-common-subsequence table -----

  function Lcs(a: seq<string>, b: seq<string>, i: nat, j: nat): (n: nat)
    requires i <= |a| && j <= |b|
    ensures n <= i && n <= j
    decreases i + j
  {
    if i == 0 || j == 0 then 0
    else if a[i - 1] == b[j - 1] then Lcs(a, b, i - 1, j - 1) + 1
    else
      var up, left := Lcs(a, b, i - 1, j), Lcs(a, b, i, j - 1);
      if up >= left then up else left
  }

  /** One more line on a side raises the length by at most one and never lowers it. */
  lemma {:induction false} LcsGrowsSlowly(a: seq<string>, b: seq<string>, i: nat, j: nat)
    requires i <= |a| && j <= |b|
    ensures i > 0 ==> Lcs(a, b, i - 1, j) <= Lcs(a, b, i, j) <= Lcs(a, b, i - 1, j) + 1
    ensures j > 0 ==> Lcs(a, b, i, j - 1) <= Lcs(a, b, i, j) <= Lcs(a, b, i, j - 1) + 1
    decreases i + j
  {
    if i > 0 && j > 0 {
      LcsGrowsSlowly(a, b, i - 1, j);
      LcsGrowsSlowly(a, b, i, j - 1);
    }
  }

  /** Which way `backtrack` leaves cell (i, j); each way keeps the length it can keep. */
  function Move(a: seq<string>, b: seq<string>, i: nat, j: nat): (kind: DiffKind)
    requires i <= |a| && j <= |b| && (i > 0 || j > 0)
    ensures kind == Context ==>
              i > 0 && j > 0 && a[i - 1] == b[j - 1] && Lcs(a, b, i, j) == Lcs(a, b, i - 1, j - 1) + 1
    ensures kind == Add ==> j > 0 && Lcs(a, b, i, j) == Lcs(a, b, i, j - 1)
    ensures kind == Remove ==> i > 0 && Lcs(a, b, i, j) == Lcs(a, b, i - 1, j)
  {
    if i > 0 && j > 0 && a[i - 1] == b[j - 1] then Context
    else if j > 0 && (i == 0 || Lcs(a, b, i, j - 1) >= Lcs(a, b, i - 1, j)) then Add
    else Remove
  }

  /** The path that `backtrack` walks from cell (i, j) to the origin, read forwards. */
  function Path(a: seq<string>, b: seq<string>, i: nat, j: nat): seq<DiffChunk>
    requires i <= |a| && j <= |b|
    decreases i + j
  {
    if i == 0 && j == 0 then []
    else match Move(a, b, i, j)
      case Context => Path(a, b, i - 1, j - 1) + [DiffChunk(Context, a[i - 1])]
      case Add => Path(a, b, i, j - 1) + [DiffChunk(Add, b[j - 1])]
      case Remove => Path(a, b, i - 1, j) + [DiffChunk(Remove, a[i - 1])]
  }

  lemma SidesOfAppend(script: seq<DiffChunk>, c: DiffChunk)
    ensures OldSide(script + [c]) == if c.kind == Add then OldSide(script) else OldSide(script) + [c.text]
    ensures NewSide(script + [c]) == if c.kind == Remove then NewSide(script) else NewSide(script) + [c.text]
    ensures Contexts(script + [c]) == Contexts(script) + if c.kind == Context then 1 else 0
  {
    assert (script + [c])[..|script|] == script;
  }

  lemma {:induction false} PathReplays(a: seq<string>, b: seq<string>, i: nat, j: nat)
    requires i <= |a| && j <= |b|
    ensures Replays(Path(a, b, i, j), a[..i], b[..j])
    ensures Contexts(Path(a, b, i, j)) == Lcs(a, b, i, j)
    decreases i + j
  {
    if i > 0 || j > 0 {
      assert i > 0 ==> a[..i] == a[..i - 1] + [a[i - 1]];
      assert j > 0 ==> b[..j] == b[..j - 1] + [b[j - 1]];
      match Move(a, b, i, j)
      case Context =>
        PathReplays(a, b, i - 1, j - 1);
        SidesOfAppend(Path(a, b, i - 1, j - 1), DiffChunk(Context, a[i - 1]));
      case Add =>
        PathReplays(a, b, i, j - 1);
        SidesOfAppend(Path(a, b, i, j - 1), DiffChunk(Add, b[j - 1]));
      case Remove =>
        PathReplays(a, b, i - 1, j);
        SidesOfAppend(Path(a, b, i - 1, j), DiffChunk(Remove, a[i - 1]));
    }
  }

  lemma RemovalsFirstAppend(script: seq<DiffChunk>, c: DiffChunk)
    requires RemovalsFirst(script)
    requires script != [] && c.kind == Remove ==> script[|script| - 1].kind != Add
    ensures RemovalsFirst(script + [c])
  {
  }

  lemma {:induction false} PathListsRemovalsFirst(a: seq<string>, b: seq<string>, i: nat, j: nat)
    requires i <= |a| && j <= |b|
    ensures RemovalsFirst(Path(a, b, i, j))
    ensures i > 0 || j > 0 ==> var p := Path(a, b, i, j); p != [] && p[|p| - 1].kind == Move(a, b, i, j)
    decreases i + j
  {
    if i > 0 || j > 0 {
      match Move(a, b, i, j)
      case Context =>
        PathListsRemovalsFirst(a, b, i - 1, j - 1);
        RemovalsFirstAppend(Path(a, b, i - 1, j - 1), DiffChunk(Context, a[i - 1]));
      case Add =>
        PathListsRemovalsFirst(a, b, i, j - 1);
        RemovalsFirstAppend(Path(a, b, i, j - 1), DiffChunk(Add, b[j - 1]));
      case Remove =>
        PathListsRemovalsFirst(a, b, i - 1, j);
        if i > 1 || j > 0 {
          NoAdditionBeforeRemoval(a, b, i, j);
        }
        RemovalsFirstAppend(Path(a, b, i - 1, j), DiffChunk(Remove, a[i - 1]));
    }
  }

  /** Had (i-1, j) been left by an addition, (i, j) would have been too. */
  lemma NoAdditionBeforeRemoval(a: seq<string>, b: seq<string>, i: nat, j: nat)
    requires 0 < i <= |a| && j <= |b| && (i > 1 || j > 0)
    requires Move(a, b, i, j) == Remove
    ensures Move(a, b, i - 1, j) != Add
  {
    if j > 0 {
      LcsGrowsSlowly(a, b, i, j - 1);
    }
  }

  /** What the last chunk of a script says about the last lines of the two sides. */
  lemma LastChunk(script: seq<DiffChunk>, a: seq<string>, b: seq<string>, i: nat, j: nat)
    requires i <= |a| && j <= |b| && script != []
    requires Replays(script, a[..i], b[..j])
    ensures var rest := script[..|script| - 1];
            match script[|script| - 1].kind
            case Context => i > 0 && j > 0 && a[i - 1] == b[j - 1] && Replays(rest, a[..i - 1], b[..j - 1])
            case Add => j > 0 && Replays(rest, a[..i], b[..j - 1])
            case Remove => i > 0 && Replays(rest, a[..i - 1], b[..j])
  {
    var rest, last := script[..|script| - 1], script[|script| - 1];
    assert |a[..i]| == i && |b[..j]| == j;
    if last.kind != Add {
      assert a[..i - 1] == a[..i][..i - 1] == OldSide(rest);
    }
    if last.kind != Remove {
      assert b[..j - 1] == b[..j][..j - 1] == NewSide(rest);
    }
  }

  /** Every script that turns a[..i] into b[..j] keeps at most Lcs(i, j) lines. */
  lemma {:induction false} ScriptKeepsAtMostLcs(script: seq<DiffChunk>, a: seq<string>, b: seq<string>, i: nat, j: nat)
    requires i <= |a| && j <= |b|
    requires Replays(script, a[..i], b[..j])
    ensures Contexts(script) <= Lcs(a, b, i, j)
    decreases |script|
  {
    if script != [] {
      LastChunk(script, a, b, i, j);
      LcsGrowsSlowly(a, b, i, j);
      var rest := script[..|script| - 1];
      match script[|script| - 1].kind
      case Context => ScriptKeepsAtMostLcs(rest, a, b, i - 1, j - 1);
      case Add => ScriptKeepsAtMostLcs(rest, a, b, i, j - 1);
      case Remove => ScriptKeepsAtMostLcs(rest, a, b, i - 1, j);
    }
  }

  lemma {:induction false} EditsCount(script: seq<DiffChunk>)
    ensures |OldSide(script)| + |NewSide(script)| == Edits(script) + 2 * Contexts(script)
  {
    if script != [] {
      EditsCount(script[..|script| - 1]);
    }
  }

  /** The two sides of any script share its context lines. */
  lemma {:induction false} ContextsAreCommon(script: seq<DiffChunk>) returns (c: seq<string>)
    ensures |c| == Contexts(script)
    ensures CommonSubsequence(c, OldSide(script), NewSide(script))
  {
    c := [];
    if script != [] {
      var rest, last := script[..|script| - 1], script[|script| - 1];
      c := ContextsAreCommon(rest);
      var a, b := OldSide(script), NewSide(script);
      if last.kind == Context {
        var d := c + [last.text];
        assert d[..|d| - 1] == c && a[..|a| - 1] == OldSide(rest) && b[..|b| - 1] == NewSide(rest);
        c := d;
      } else if last.kind == Add {
        assert b[..|b| - 1] == NewSide(rest);
      } else {
        assert a[..|a| - 1] == OldSide(rest);
      }
    }
  }

  /** Lcs really is the greatest length of a common subsequence. */
  lemma {:induction false} CommonSubsequenceAtMostLcs(c: seq<string>, a: seq<string>, b: seq<string>, i: nat, j: nat)
    requires i <= |a| && j <= |b|
    requires CommonSubsequence(c, a[..i], b[..j])
    ensures |c| <= Lcs(a, b, i, j)
    decreases i + j
  {
    if c != [] {
      var c', x := c[..|c| - 1], c[|c| - 1];
      LcsGrowsSlowly(a, b, i, j);
      assert a[..i][..i - 1] == a[..i - 1] && b[..j][..j - 1] == b[..j - 1];
      if !(x == a[i - 1] && Subsequence(c', a[..i - 1])) {
        CommonSubsequenceAtMostLcs(c, a, b, i - 1, j);
      } else if !(x == b[j - 1] && Subsequence(c', b[..j - 1])) {
        CommonSubsequenceAtMostLcs(c, a, b, i, j - 1);
      } else {
        CommonSubsequenceAtMostLcs(c', a, b, i - 1, j - 1);
      }
    }
  }

  // ----- The algorithm -----

  /** Fills the flat (|a|+1) x (|b|+1) table; cell i*stride+j holds Lcs(i, j). */
  method LcsMatrix(a: seq<string>, b: seq<string>) returns (dp: array<nat>)
    ensures dp.Length == (|a| + 1) * (|b| + 1)
    ensures Filled(a, b, dp[..])
  {
    var m, n := |a|, |b|;
    dp := new nat[(m + 1) * (n + 1)](_ => 0);
    BordersAreZero(a, b, dp[..]);
    for i := 1 to m + 1
      invariant FilledTo(a, b, dp[..], i, 1)
    {
      for j := 1 to n + 1
        invariant FilledTo(a, b, dp[..], i, j)
      {
        FillCell(a, b, dp, i, j);
      }
      RowFilled(a, b, dp[..], i);
    }
  }

  /** One pass of the inner loop body. */
  method FillCell(a: seq<string>, b: seq<string>, dp: array<nat>, i: nat, j: nat)
    requires 0 < i <= |a| && 0 < j <= |b|
    requires FilledTo(a, b, dp[..], i, j)
    modifies dp
    ensures FilledTo(a, b, dp[..], i, j + 1)
  {
    var n := |b|;
    CellInBounds(|a|, n, i, j);
    CellHolds(a, b, dp[..], i, j, i - 1, j - 1);
    CellHolds(a, b, dp[..], i, j, i - 1, j);
    CellHolds(a, b, dp[..], i, j, i, j - 1);
    ghost var was := dp[..];
    var value;
    if a[i - 1] == b[j - 1] {
      value := dp[Cell(n, i - 1, j - 1)] + 1;
    } else {
      var up := dp[Cell(n, i - 1, j)];
      var left := dp[Cell(n, i, j - 1)];
      value := if up >= left then up else left;
    }
    dp[Cell(n, i, j)] := value;
    assert dp[..] == was[Cell(n, i, j) := value];
    CellsStayFilled(a, b, was, i, j, value);
  }

  lemma BordersAreZero(a: seq<string>, b: seq<string>, dp: seq<nat>)
    requires |dp| == (|a| + 1) * (|b| + 1) && forall k :: 0 <= k < |dp| ==> dp[k] == 0
    ensures FilledTo(a, b, dp, 1, 1)
  {
    forall p: nat, q: nat | p <= |a| && q <= |b| && (p == 0 || q == 0)
      ensures Cell(|b|, p, q) < |dp| && dp[Cell(|b|, p, q)] == Lcs(a, b, p, q)
    {
      CellInBounds(|a|, |b|, p, q);
    }
  }

  lemma RowFilled(a: seq<string>, b: seq<string>, dp: seq<nat>, i: nat)
    requires 0 < i <= |a| && FilledTo(a, b, dp, i, |b| + 1)
    ensures FilledTo(a, b, dp, i + 1, 1)
  {
  }

  lemma CellHolds(a: seq<string>, b: seq<string>, dp: seq<nat>, i: nat, j: nat, p: nat, q: nat)
    requires FilledTo(a, b, dp, i, j)
    requires p <= |a| && q <= |b| && (p == 0 || q == 0 || p < i || (p == i && q < j))
    ensures Cell(|b|, p, q) < |dp| && dp[Cell(|b|, p, q)] == Lcs(a, b, p, q)
  {
  }

  function Cell(n: nat, i: nat, j: nat): nat {
    i * (n + 1) + j
  }

  lemma CellInBounds(m: nat, n: nat, i: nat, j: nat)
    requires i <= m && j <= n
    ensures Cell(n, i, j) < (m + 1) * (n + 1)
  {
    assert i * (n + 1) <= m * (n + 1);
  }

  lemma CellsRunByRows(n: nat, i: nat, j: nat, p: nat, q: nat)
    requires j <= n && i < p
    ensures Cell(n, i, j) < Cell(n, p, q)
  {
    assert (i + 1) * (n + 1) <= p * (n + 1);
  }

  /** Rows before `i` are right, row `i` up to column `j` too, and so are the zero borders. */
  ghost predicate FilledTo(a: seq<string>, b: seq<string>, dp: seq<nat>, i: nat, j: nat) {
    && |dp| == (|a| + 1) * (|b| + 1)
    && forall p: nat, q: nat {:trigger Cell(|b|, p, q)} ::
         p <= |a| && q <= |b| && (p == 0 || q == 0 || p < i || (p == i && q < j))
         ==> Cell(|b|, p, q) < |dp| && dp[Cell(|b|, p, q)] == Lcs(a, b, p, q)
  }

  ghost predicate Filled(a: seq<string>, b: seq<string>, dp: seq<nat>) {
    FilledTo(a, b, dp, |a| + 1, 1)
  }

  lemma CellsStayFilled(a: seq<string>, b: seq<string>, dp: seq<nat>, i: nat, j: nat, value: nat)
    requires 0 < i <= |a| && 0 < j <= |b|
    requires FilledTo(a, b, dp, i, j)
    requires value == Lcs(a, b, i, j)
    requires Cell(|b|, i, j) < |dp|
    ensures FilledTo(a, b, dp[Cell(|b|, i, j) := value], i, j + 1)
  {
    forall p: nat, q: nat | p <= |a| && q <= |b| && p != i
      ensures Cell(|b|, p, q) != Cell(|b|, i, j)
    {
      if p < i {
        CellsRunByRows(|b|, p, q, i, j);
      } else {
        CellsRunByRows(|b|, i, j, p, q);
      }
    }
  }

  function Reversed(s: seq<DiffChunk>): seq<DiffChunk> {
    if s == [] then [] else [s[|s| - 1]] + Reversed(s[..|s| - 1])
  }

  /** Reads the two neighbouring cells, as the test inside `backtrack` does. */
  method ChooseMove(a: seq<string>, b: seq<string>, dp: array<nat>, i: nat, j: nat) returns (kind: DiffKind)
    requires Filled(a, b, dp[..])
    requires i <= |a| && j <= |b| && (i > 0 || j > 0)
    ensures kind == Move(a, b, i, j)
  {
    if i > 0 && j > 0 && a[i - 1] == b[j - 1] {
      return Context;
    }
    if j > 0 && i > 0 {
      CellHolds(a, b, dp[..], |a| + 1, 1, i, j - 1);
      CellHolds(a, b, dp[..], |a| + 1, 1, i - 1, j);
    }
    if j > 0 && (i == 0 || dp[Cell(|b|, i, j - 1)] >= dp[Cell(|b|, i - 1, j)]) {
      return Add;
    }
    return Remove;
  }

  method Backtrack(a: seq<string>, b: seq<string>, dp: array<nat>) returns (script: seq<DiffChunk>)
    requires Filled(a, b, dp[..])
    ensures script == Path(a, b, |a|, |b|)
  {
    var result: seq<DiffChunk> := [];
    var i, j := |a|, |b|;
    assert Path(a, b, 0, 0) == [];
    hide Path;
    hide Lcs;
    hide Move;
    hide Filled;
    ghost var path := Path(a, b, i, j);
    while i > 0 || j > 0
      invariant 0 <= i <= |a| && 0 <= j <= |b|
      invariant path == Path(a, b, i, j) + Reversed(result)
      decreases i + j
    {
      var kind := ChooseMove(a, b, dp, i, j);
      PathStep(a, b, i, j, kind, result);
      result := result + [DiffChunk(kind, if kind == Add then b[j - 1] else a[i - 1])];
      if kind != Remove {
        j := j - 1;
      }
      if kind != Add {
        i := i - 1;
      }
    }
    script := Reversed(result);
  }

  /** Pushing the chunk of a move makes up for the cell that the move leaves. */
  lemma PathStep(a: seq<string>, b: seq<string>, i: nat, j: nat, kind: DiffKind, result: seq<DiffChunk>)
    requires i <= |a| && j <= |b| && (i > 0 || j > 0)
    requires kind == Move(a, b, i, j)
    ensures Path(a, b, i, j) + Reversed(result) ==
            Path(a, b, if kind == Add then i else i - 1, if kind == Remove then j else j - 1)
            + Reversed(result + [DiffChunk(kind, if kind == Add then b[j - 1] else a[i - 1])])
  {
    ReversedPush(result, DiffChunk(kind, if kind == Add then b[j - 1] else a[i - 1]));
  }

  lemma ReversedPush(s: seq<DiffChunk>, c: DiffChunk)
    ensures Reversed(s + [c]) == [c] + Reversed(s)
  {
    assert (s + [c])[..|s|] == s;
  }

  /** A run of lines all marked alike, as the fast paths return them. */
  function Uniform(kind: DiffKind, lines: seq<string>): (script: seq<DiffChunk>)
    ensures |script| == |lines| && forall k :: 0 <= k < |lines| ==> script[k] == DiffChunk(kind, lines[k])
  {
    seq(|lines|, k requires 0 <= k < |lines| => DiffChunk(kind, lines[k]))
  }

  lemma {:induction false} UniformSides(kind: DiffKind, lines: seq<string>)
    ensures OldSide(Uniform(kind, lines)) == if kind == Add then [] else lines
    ensures NewSide(Uniform(kind, lines)) == if kind == Remove then [] else lines
    ensures Edits(Uniform(kind, lines)) == if kind == Context then 0 else |lines|
    decreases |lines|
  {
    if lines != [] {
      var u := Uniform(kind, lines);
      UniformSides(kind, lines[..|lines| - 1]);
      assert u[..|u| - 1] == Uniform(kind, lines[..|lines| - 1]);
    }
  }

  /** The inputs on which the viewer promises an exact, shortest script. */
  predicate Diffable(oldText: string, newText: string) {
    oldText == newText
    || (oldText != "" && newText != ""
        && |SplitLines(oldText)| <= MAX_DIFF_LINES && |SplitLines(newText)| <= MAX_DIFF_LINES)
  }

  /** A replaying script that no other replaying script beats. */
  ghost predicate Shortest(script: seq<DiffChunk>, a: seq<string>, b: seq<string>) {
    && Replays(script, a, b)
    && forall other: seq<DiffChunk> :: Replays(other, a, b) ==> Edits(script) <= Edits(other)
  }

  method DiffLines(oldText: string, newText: string) returns (r: DiffResult)
    ensures Diffable(oldText, newText) <==> Replays(r.chunks, SplitLines(oldText), SplitLines(newText))
    ensures Diffable(oldText, newText) ==> Shortest(r.chunks, SplitLines(oldText), SplitLines(newText))
    ensures RemovalsFirst(r.chunks)
    ensures oldText == "" && newText != "" ==> r.chunks == Uniform(Add, SplitLines(newText))
    ensures oldText != "" && newText == "" ==> r.chunks == Uniform(Remove, SplitLines(oldText))
    ensures r.oversized <==> !Diffable(oldText, newText) && oldText != "" && newText != ""
    ensures r.oversized ==> r.chunks == []
  {
    var a := SplitLines(oldText);
    var b := SplitLines(newText);
    OnlyEmptyTextSplitsToLoneEmpty(oldText);
    OnlyEmptyTextSplitsToLoneEmpty(newText);
    if oldText == newText {
      UniformSides(Context, a);
      return DiffResult(Uniform(Context, a), false);
    }
    if |a| == 0 || (|a| == 1 && a[0] == "") {
      UniformSides(Add, b);
      return DiffResult(Uniform(Add, b), false);
    }
    if |b| == 0 || (|b| == 1 && b[0] == "") {
      UniformSides(Remove, a);
      return DiffResult(Uniform(Remove, a), false);
    }
    if |a| > MAX_DIFF_LINES || |b| > MAX_DIFF_LINES {
      return DiffResult([], true);
    }
    var dp := LcsMatrix(a, b);
    var chunks := Backtrack(a, b, dp);
    PathIsShortest(a, b);
    PathListsRemovalsFirst(a, b, |a|, |b|);
    r := DiffResult(chunks, false);
  }

  lemma PathIsShortest(a: seq<string>, b: seq<string>)
    ensures Shortest(Path(a, b, |a|, |b|), a, b)
  {
    var p := Path(a, b, |a|, |b|);
    assert a[..|a|] == a && b[..|b|] == b;
    PathReplays(a, b, |a|, |b|);
    EditsCount(p);
    forall other: seq<DiffChunk> | Replays(other, a, b)
      ensures Edits(p) <= Edits(other)
    {
      ScriptKeepsAtMostLcs(other, a, b, |a|, |b|);
      EditsCount(other);
    }
  }

  /** The kept lines of the script are as many as the longest common subsequence has. */
  lemma ContextsAreLongestCommonSubsequence(a: seq<string>, b: seq<string>) returns (c: seq<string>)
    ensures |c| == Contexts(Path(a, b, |a|, |b|)) && CommonSubsequence(c, a, b)
    ensures forall d: seq<string> :: CommonSubsequence(d, a, b) ==> |d| <= |c|
  {
    assert a[..|a|] == a && b[..|b|] == b;
    PathReplays(a, b, |a|, |b|);
    c := ContextsAreCommon(Path(a, b, |a|, |b|));
    forall d: seq<string> | CommonSubsequence(d, a, b)
      ensures |d| <= |c|
    {
      CommonSubsequenceAtMostLcs(d, a, b, |a|, |b|);
    }
  }
}
