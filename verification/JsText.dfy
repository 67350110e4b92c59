/** The few JavaScript string operations that several components share. */
module JsText {
  /** JavaScript's `\s`, which is also what `trim` removes. */
  predicate IsSpace(c: char) {
    '\t' <= c <= '\r' || c == ' ' || c == '\U{00A0}' || c == '\U{1680}' || '\U{2000}' <= c <= '\U{200A}'
    || c == '\U{2028}' || c == '\U{2029}' || c == '\U{202F}' || c == '\U{205F}' || c == '\U{3000}' || c == '\U{FEFF}'
  }

  function TrimEnd(s: string): (r: string)
    ensures r <= s
    ensures r == "" || !IsSpace(r[|r| - 1])
    ensures forall i :: |r| <= i < |s| ==> IsSpace(s[i])
  {
    if s == "" || !IsSpace(s[|s| - 1]) then s else TrimEnd(s[..|s| - 1])
  }

  function TrimStart(s: string): (r: string)
    ensures |r| <= |s| && r == s[|s| - |r|..]
    ensures r == "" || !IsSpace(r[0])
    ensures forall i :: 0 <= i < |s| - |r| ==> IsSpace(s[i])
  {
    if s == "" || !IsSpace(s[0]) then s else TrimStart(s[1..])
  }

  function Trim(s: string): (r: string)
    ensures r == "" || (!IsSpace(r[0]) && !IsSpace(r[|r| - 1]))
    ensures r == "" <==> forall i :: 0 <= i < |s| ==> IsSpace(s[i])
    ensures |r| <= |s|
  {
    TrimEnd(TrimStart(s))
  }

  lemma {:induction false} TrimmedIsFixed(s: string)
    requires s == "" || (!IsSpace(s[0]) && !IsSpace(s[|s| - 1]))
    ensures Trim(s) == s && TrimEnd(s) == s
  {
    assert TrimStart(s) == s;
  }

  /** Text that `trim` empties or leaves as is, once a blank suffix is put behind it. */
  lemma {:induction false} TrimEndDropsBlanks(s: string, blanks: string)
    requires s == "" || !IsSpace(s[|s| - 1])
    requires forall i :: 0 <= i < |blanks| ==> IsSpace(blanks[i])
    ensures TrimEnd(s + blanks) == s
    decreases |blanks|
  {
    if blanks == "" {
      assert s + blanks == s;
    } else {
      assert (s + blanks)[..|s + blanks| - 1] == s + blanks[..|blanks| - 1];
      TrimEndDropsBlanks(s, blanks[..|blanks| - 1]);
    }
  }

  // ----- Sets of strings in insertion order -----

  /** Array.from(new Set(items)): first occurrences, in order. */
  function Dedupe(items: seq<string>): (r: seq<string>)
    ensures forall t :: t in r <==> t in items
    ensures Distinct(r)
  {
    if items == [] then []
    else
      var init := items[..|items| - 1];
      var last := items[|items| - 1];
      assert items == init + [last];
      if last in init then Dedupe(init) else Dedupe(init) + [last]
  }

  predicate Distinct(items: seq<string>) {
    forall i, j :: 0 <= i < j < |items| ==> items[i] != items[j]
  }

  lemma DedupeAppend(items: seq<string>, last: string)
    ensures Dedupe(items + [last]) == if last in items then Dedupe(items) else Dedupe(items) + [last]
  {
    assert (items + [last])[..|items + [last]| - 1] == items;
  }

  lemma {:induction false} DedupeDistinct(items: seq<string>)
    requires Distinct(items)
    ensures Dedupe(items) == items
  {
    if items != [] {
      DedupeDistinct(items[..|items| - 1]);
      assert items == items[..|items| - 1] + [items[|items| - 1]];
    }
  }

  lemma DedupeTwice(items: seq<string>)
    ensures Dedupe(Dedupe(items)) == Dedupe(items)
  {
    DedupeDistinct(Dedupe(items));
  }
}
