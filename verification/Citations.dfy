/** The citation check on a synthesized answer (lib/retrieval-citations.ts). */
module Citations {
  import opened JsText
  import opened Options

  // ----- Line endings -----

  /** CRLF and lone CR become LF. */
  function Normalize(s: string): (r: string)
    ensures '\r' !in r
    decreases |s|
  {
    if s == "" then ""
    else if s[0] == '\r' then "\n" + Normalize(if |s| > 1 && s[1] == '\n' then s[2..] else s[1..])
    else [s[0]] + Normalize(s[1..])
  }

  lemma {:induction false} NormalizeFixes(s: string)
    requires '\r' !in s
    ensures Normalize(s) == s
  {
    if s != "" {
      assert s[0] in s && s == [s[0]] + s[1..];
      NormalizeFixes(s[1..]);
    }
  }

  // ----- ^Sources:[ \t]*\[([^\]]*)\][ \t]*$ with the m flag -----

  predicate IsBreak(c: char) {
    c == '\n' || c == '\r' || c == '\U{2028}' || c == '\U{2029}'
  }

  predicate LineStart(s: string, i: nat)
    requires i <= |s|
  {
    i == 0 || IsBreak(s[i - 1])
  }

  predicate LineEnd(s: string, i: nat)
    requires i <= |s|
  {
    i == |s| || IsBreak(s[i])
  }

  const KEYWORD := "Sources:"

  predicate KeywordAt(s: string, i: nat) {
    i + |KEYWORD| <= |s| && forall j :: 0 <= j < |KEYWORD| ==> s[i + j] == KEYWORD[j]
  }

  /** Past `[ \t]*`. */
  function SkipBlanks(s: string, i: nat): (j: nat)
    requires i <= |s|
    ensures i <= j <= |s|
    decreases |s| - i
  {
    if i < |s| && (s[i] == ' ' || s[i] == '\t') then SkipBlanks(s, i + 1) else i
  }

  /** The first `]` at or after `i`, or the end of the text. */
  function CloseAt(s: string, i: nat): (j: nat)
    requires i <= |s|
    ensures i <= j <= |s|
    ensures j < |s| ==> s[j] == ']'
    ensures ']' !in s[i..j]
    decreases |s| - i
  {
    if i < |s| && s[i] != ']' then CloseAt(s, i + 1) else i
  }

  /** A match: `[start, end)`, and what stands between its brackets. */
  datatype Match = Match(start: nat, end: nat, inner: string)

  function MatchAt(s: string, i: nat): (m: Option<Match>)
    requires i <= |s|
    ensures m.Some? ==> m.value.start == i && i < m.value.end <= |s| && LineStart(s, i) && KeywordAt(s, i)
    ensures m.Some? ==> ']' !in m.value.inner
  {
    if !(LineStart(s, i) && KeywordAt(s, i)) then None
    else
      var open := SkipBlanks(s, i + |KEYWORD|);
      if open == |s| || s[open] != '[' then None
      else
        var close := CloseAt(s, open + 1);
        if close == |s| then None
        else
          var end := SkipBlanks(s, close + 1);
          if LineEnd(s, end) then Some(Match(i, end, s[open + 1..close])) else None
  }

  function FirstMatch(s: string, i: nat): (m: Option<Match>)
    requires i <= |s|
    ensures m.Some? ==> i <= m.value.start < m.value.end <= |s|
    decreases |s| - i
  {
    if MatchAt(s, i).Some? then MatchAt(s, i)
    else if i == |s| then None
    else FirstMatch(s, i + 1)
  }

  /** It is the match with the lowest start. */
  lemma {:induction false} FirstMatchIsFirst(s: string, i: nat)
    requires i <= |s|
    ensures var m := FirstMatch(s, i);
      && (m.Some? ==> MatchAt(s, m.value.start) == m)
      && forall k :: i <= k <= |s| && (m.Some? ==> k < m.value.start) ==> MatchAt(s, k) == None
    decreases |s| - i
  {
    hide MatchAt;
    if MatchAt(s, i).None? && i < |s| {
      FirstMatchIsFirst(s, i + 1);
    }
  }

  /** All matches of the g flag: each search goes on where the last match ended. */
  function Matches(s: string, i: nat): (ms: seq<Match>)
    requires i <= |s|
    ensures FirstMatch(s, i).None? <==> ms == []
    ensures ms != [] ==> ms[0] == FirstMatch(s, i).value
    decreases |s| - i
  {
    var m := FirstMatch(s, i);
    if m.None? then [] else [m.value] + Matches(s, m.value.end)
  }

  /** replace(/.../g, "") from `i` on. */
  function Strip(s: string, i: nat): string
    requires i <= |s|
    decreases |s| - i
  {
    var m := FirstMatch(s, i);
    if m.None? then s[i..] else s[i..m.value.start] + Strip(s, m.value.end)
  }

  // ----- Ids -----

  predicate IsHex(c: char) {
    '0' <= c <= '9' || 'a' <= c <= 'f' || 'A' <= c <= 'F'
  }

  predicate UuidShape(u: string) {
    && |u| == 36
    && forall i :: 0 <= i < 36 ==> if i == 8 || i == 13 || i == 18 || i == 23 then u[i] == '-' else IsHex(u[i])
  }

  /** Version nibble 4 and the variant of RFC 4122 section 4.4. */
  predicate IsV4(u: string) {
    UuidShape(u) && u[14] == '4' && u[19] in "89abAB"
  }

  const CITATION_LENGTH := 38

  predicate CitationAt(s: string, i: nat) {
    i + CITATION_LENGTH <= |s| && s[i] == '[' && s[i + 37] == ']' && UuidShape(s[i + 1..i + 37])
  }

  /** The bracketed ids in order of occurrence, repeats included. */
  function Inlines(s: string, i: nat): (ids: seq<string>)
    requires i <= |s|
    decreases |s| - i
  {
    if i == |s| then []
    else if CitationAt(s, i) then [s[i + 1..i + 37]] + Inlines(s, i + CITATION_LENGTH)
    else Inlines(s, i + 1)
  }

  function Split(s: string, separator: char): (parts: seq<string>)
    ensures |parts| >= 1
  {
    if s == "" then [""]
    else if s[0] == separator then [""] + Split(s[1..], separator)
    else
      var rest := Split(s[1..], separator);
      [[s[0]] + rest[0]] + rest[1..]
  }

  function TrimAll(parts: seq<string>): (r: seq<string>)
    ensures |r| == |parts| && forall i :: 0 <= i < |parts| ==> r[i] == Trim(parts[i])
  {
    seq(|parts|, i requires 0 <= i < |parts| => Trim(parts[i]))
  }

  function IdsOf(inner: string): seq<string> {
    if Trim(inner) == "" then [] else TrimAll(Split(inner, ','))
  }

  // ----- The check -----

  datatype Verdict =
    | Valid(ids: seq<string>, body: string)
    | SourcesBlockMissing
    | MultipleSourcesBlocks(count: nat)
    | TrailingProse(trailing: string)
    | SourcesBlockEmpty
    | InvalidUuid(offending: seq<string>)
    | DuplicateId(offending: seq<string>)
    | HallucinatedId(offending: seq<string>)
    | InlineSourcesMismatch(inlineOnly: seq<string>, sourcesOnly: seq<string>)

  function NotV4(ids: seq<string>): seq<string> {
    if ids == [] then []
    else if IsV4(ids[|ids| - 1]) then NotV4(ids[..|ids| - 1])
    else NotV4(ids[..|ids| - 1]) + [ids[|ids| - 1]]
  }

  lemma {:induction false} NotV4IsEmptyIff(ids: seq<string>)
    ensures NotV4(ids) == [] <==> forall id :: id in ids ==> IsV4(id)
  {
    if ids != [] {
      var init, last := ids[..|ids| - 1], ids[|ids| - 1];
      assert ids == init + [last];
      hide IsV4;
      NotV4IsEmptyIff(init);
    }
  }

  /** Each id that has already been listed before. */
  function Repeats(ids: seq<string>): seq<string> {
    if ids == [] then []
    else if ids[|ids| - 1] in ids[..|ids| - 1] then Repeats(ids[..|ids| - 1]) + [ids[|ids| - 1]]
    else Repeats(ids[..|ids| - 1])
  }

  lemma {:induction false} RepeatsIsEmptyIff(ids: seq<string>)
    ensures Repeats(ids) == [] <==> Distinct(ids)
  {
    if ids != [] {
      var init, last := ids[..|ids| - 1], ids[|ids| - 1];
      assert ids == init + [last];
      RepeatsIsEmptyIff(init);
      if last in init {
        var i :| 0 <= i < |init| && init[i] == last;
        assert ids[i] == ids[|ids| - 1];
      }
    }
  }

  /** filter((id) => not in `allowed`) */
  function Outside(ids: seq<string>, allowed: seq<string>): seq<string> {
    if ids == [] then []
    else if ids[0] in allowed then Outside(ids[1..], allowed)
    else [ids[0]] + Outside(ids[1..], allowed)
  }

  lemma {:induction false} OutsideIsEmptyIff(ids: seq<string>, allowed: seq<string>)
    ensures Outside(ids, allowed) == [] <==> forall id :: id in ids ==> id in allowed
  {
    if ids != [] {
      assert ids == [ids[0]] + ids[1..];
      OutsideIsEmptyIff(ids[1..], allowed);
    }
  }

  lemma {:induction false} OutsideOfDedupe(ids: seq<string>, allowed: seq<string>)
    ensures Outside(Dedupe(ids), allowed) == [] <==> Outside(ids, allowed) == []
  {
    OutsideIsEmptyIff(ids, allowed);
    OutsideIsEmptyIff(Dedupe(ids), allowed);
  }

  /** The verdict on a normalised answer: the first of the eight steps that fails, or all passed. */
  function Check(text: string, reranked: seq<string>): Verdict {
    var found := FirstMatch(text, 0);
    if found.None? then SourcesBlockMissing
    else
      var m := found.value;
      var ids := IdsOf(m.inner);
      var inline := Inlines(Strip(text, 0), 0);
      if |Matches(text, 0)| > 1 then MultipleSourcesBlocks(|Matches(text, 0)|)
      else if Trim(text[m.end..]) != "" then TrailingProse(text[m.end..])
      else if ids == [] then SourcesBlockEmpty
      else if NotV4(Dedupe(ids + inline)) != [] then InvalidUuid(NotV4(Dedupe(ids + inline)))
      else if Repeats(ids) != [] then DuplicateId(Repeats(ids))
      else if Outside(ids, reranked) != [] then HallucinatedId(Outside(ids, reranked))
      else if Outside(inline, ids) != [] || Outside(ids, inline) != [] then
        InlineSourcesMismatch(Outside(Dedupe(inline), ids), Outside(ids, inline))
      else Valid(ids, TrimEnd(text[..m.start]))
  }

  // ----- The code's own loops -----

  datatype Parsed = Parsed(ids: seq<string>, start: nat, end: nat)

  method ParseSourcesBlock(answer: string) returns (r: Option<Parsed>)
    ensures var text := Normalize(answer);
      var m := FirstMatch(text, 0);
      r == if m.None? then None else Some(Parsed(IdsOf(m.value.inner), m.value.start, m.value.end))
    ensures var text := Normalize(answer);
      if r.None? then forall k :: 0 <= k <= |text| ==> MatchAt(text, k).None?
      else
        && r.value.start < r.value.end <= |text|
        && (forall k :: 0 <= k < r.value.start ==> MatchAt(text, k).None?)
        && exists inner :: MatchAt(text, r.value.start) == Some(Match(r.value.start, r.value.end, inner))
                           && r.value.ids == IdsOf(inner)
  {
    var text := Normalize(answer);
    var m := FirstMatch(text, 0);
    FirstMatchIsFirst(text, 0);
    hide FirstMatch;
    hide MatchAt;
    if m.None? {
      return None;
    }
    var ids := if Trim(m.value.inner) == "" then [] else TrimAll(Split(m.value.inner, ','));
    r := Some(Parsed(ids, m.value.start, m.value.end));
  }

  method ExtractInlineCitations(answer: string) returns (ids: seq<string>)
    ensures ids == Inlines(Strip(Normalize(answer), 0), 0)
  {
    var body := Strip(Normalize(answer), 0);
    hide Strip;
    hide Normalize;
    ids := [];
    var i := 0;
    while i < |body|
      invariant i <= |body|
      invariant ids + Inlines(body, i) == Inlines(body, 0)
    {
      if CitationAt(body, i) {
        ids := ids + [body[i + 1..i + 37]];
        i := i + CITATION_LENGTH;
      } else {
        i := i + 1;
      }
    }
  }

  method ValidateCitations(answer: string, reranked: seq<string>) returns (v: Verdict)
    ensures v == Check(Normalize(answer), reranked)
  {
    var text := Normalize(answer);
    NormalizeFixes(text);
    hide Normalize;
    hide FirstMatch;
    hide Matches;
    hide Strip;
    hide Inlines;
    hide IdsOf;
    hide Trim;
    hide TrimEnd;
    hide Dedupe;
    hide NotV4;
    hide Repeats;
    hide Outside;
    hide Distinct;
    var parsed := ParseSourcesBlock(text);
    if parsed.None? {
      return SourcesBlockMissing;
    }
    var all := Matches(text, 0);
    if |all| > 1 {
      return MultipleSourcesBlocks(|all|);
    }
    var trailing := text[parsed.value.end..];
    if Trim(trailing) != "" {
      return TrailingProse(trailing);
    }
    var ids := parsed.value.ids;
    if ids == [] {
      return SourcesBlockEmpty;
    }
    var inline := ExtractInlineCitations(text);
    var bad := FindNotV4(Dedupe(ids + inline));
    if bad != [] {
      return InvalidUuid(bad);
    }
    var repeats := FindRepeats(ids);
    if repeats != [] {
      return DuplicateId(repeats);
    }
    var hallucinated := Outside(ids, reranked);
    if hallucinated != [] {
      return HallucinatedId(hallucinated);
    }
    RepeatsIsEmptyIff(ids);
    DedupeDistinct(ids);
    var inlineOnly := Outside(Dedupe(inline), ids);
    var sourcesOnly := Outside(Dedupe(ids), Dedupe(inline));
    OutsideSameMembers(ids, Dedupe(inline), inline);
    OutsideOfDedupe(inline, ids);
    if inlineOnly != [] || sourcesOnly != [] {
      return InlineSourcesMismatch(inlineOnly, sourcesOnly);
    }
    v := Valid(ids, TrimEnd(text[..parsed.value.start]));
  }

  method FindNotV4(ids: seq<string>) returns (bad: seq<string>)
    ensures bad == NotV4(ids)
  {
    bad := [];
    for i := 0 to |ids|
      invariant bad == NotV4(ids[..i])
    {
      assert ids[..i + 1][..i] == ids[..i];
      if !IsV4(ids[i]) {
        bad := bad + [ids[i]];
      }
    }
    assert ids[..|ids|] == ids;
  }

  method FindRepeats(ids: seq<string>) returns (bad: seq<string>)
    ensures bad == Repeats(ids)
  {
    bad := [];
    var seen: set<string> := {};
    for i := 0 to |ids|
      invariant bad == Repeats(ids[..i])
      invariant forall id :: id in seen <==> id in ids[..i]
    {
      assert ids[..i + 1][..i] == ids[..i];
      if ids[i] in seen {
        bad := bad + [ids[i]];
      } else {
        seen := seen + {ids[i]};
      }
    }
    assert ids[..|ids|] == ids;
  }

  lemma {:induction false} OutsideSameMembers(ids: seq<string>, a: seq<string>, b: seq<string>)
    requires forall id :: id in a <==> id in b
    ensures Outside(ids, a) == Outside(ids, b)
  {
    if ids != [] {
      OutsideSameMembers(ids[1..], a, b);
    }
  }

  // ----- What an accepted answer guarantees -----

  /** Ids that a body cites, every one of them a v4 id from the reranked set, none named twice. */
  ghost predicate Cites(body: string, ids: seq<string>, reranked: seq<string>) {
    && ids != [] && Distinct(ids)
    && (forall id :: id in ids ==> IsV4(id) && id in reranked)
    && forall id :: id in ids <==> id in Inlines(body, 0)
  }

  /** The answer is one Sources line behind a body, and the two name the same entries. */
  ghost predicate Accepted(text: string, reranked: seq<string>, ids: seq<string>, body: string) {
    && Cites(body, ids, reranked)
    && exists m: Match ::
         && MatchesOnce(text, m)
         && ids == IdsOf(m.inner)
         && body == TrimEnd(text[..m.start])
         && Trim(text[m.end..]) == ""
  }

  predicate MatchesOnce(text: string, m: Match) {
    && FirstMatch(text, 0) == Some(m)
    && FirstMatch(text, m.end).None?
  }

  lemma SameInlines(s: string, blanks: string, i: nat)
    requires i <= |s| && forall k :: 0 <= k < |blanks| ==> IsSpace(blanks[k])
    ensures Inlines(s + blanks, i) == Inlines(s, i)
    decreases |s| - i
  {
    var t := s + blanks;
    if i == |s| {
      InlinesOfBlanks(t, i);
    } else {
      assert CitationAt(t, i) <==> CitationAt(s, i) by {
        assert |s| <= i + 37 < |t| ==> t[i + 37] == blanks[i + 37 - |s|];
        assert i + CITATION_LENGTH <= |s| ==> t[i + 1..i + 37] == s[i + 1..i + 37];
      }
      if CitationAt(s, i) {
        assert t[i + 1..i + 37] == s[i + 1..i + 37];
        SameInlines(s, blanks, i + CITATION_LENGTH);
      } else {
        SameInlines(s, blanks, i + 1);
      }
    }
  }

  lemma {:induction false} InlinesOfBlanks(s: string, i: nat)
    requires i <= |s| && forall k :: i <= k < |s| ==> IsSpace(s[k])
    ensures Inlines(s, i) == []
    decreases |s| - i
  {
    if i < |s| {
      InlinesOfBlanks(s, i + 1);
    }
  }

  lemma StripsOne(text: string, m: Match)
    requires MatchesOnce(text, m)
    ensures Strip(text, 0) == text[..m.start] + text[m.end..]
    ensures Matches(text, 0) == [m]
  {
    assert Strip(text, m.end) == text[m.end..];
    assert Matches(text, m.end) == [];
    hide FirstMatch;
  }

  lemma BlanksAround(text: string, start: nat, end: nat)
    requires start <= end <= |text| && Trim(text[end..]) == ""
    ensures var body := TrimEnd(text[..start]);
      var blanks := text[|body|..start] + text[end..];
      text[..start] + text[end..] == body + blanks && forall k :: 0 <= k < |blanks| ==> IsSpace(blanks[k])
  {
    hide *;
    var head, tail := text[..start], text[end..];
    var body := TrimEnd(head);
    var gap := head[|body|..];
    assert text[|body|..start] == gap;
    assert head == body + gap;
    assert (body + gap) + tail == body + (gap + tail);
    TwoBlanks(gap, tail);
  }

  lemma TwoBlanks(a: string, b: string)
    requires (forall k :: 0 <= k < |a| ==> IsSpace(a[k])) && forall k :: 0 <= k < |b| ==> IsSpace(b[k])
    ensures forall k :: 0 <= k < |a + b| ==> IsSpace((a + b)[k])
  {
    hide IsSpace;
  }

  /** With one match and nothing but blanks behind it, the text around it cites what the body cites. */
  lemma StrippedCitesTheBody(text: string, m: Match)
    requires MatchesOnce(text, m) && Trim(text[m.end..]) == ""
    ensures Inlines(Strip(text, 0), 0) == Inlines(TrimEnd(text[..m.start]), 0)
  {
    StripsOne(text, m);
    BlanksAround(text, m.start, m.end);
    hide Strip;
    hide FirstMatch;
    hide Trim;
    hide TrimEnd;
    var body := TrimEnd(text[..m.start]);
    SameInlines(body, text[|body|..m.start] + text[m.end..], 0);
  }

  lemma ManyMatches(text: string, m: Match)
    requires FirstMatch(text, 0) == Some(m)
    ensures |Matches(text, 0)| > 1 <==> !MatchesOnce(text, m)
  {
    assert Matches(text, 0) == [m] + Matches(text, m.end);
    hide FirstMatch;
  }

  /** The verdict is ok exactly when all eight steps hold, with exactly those ids and that body. */
  lemma ValidIff(text: string, reranked: seq<string>, ids: seq<string>, body: string)
    ensures Check(text, reranked) == Valid(ids, body) <==> Accepted(text, reranked, ids, body)
  {
    hide FirstMatch;
    hide Matches;
    hide Strip;
    hide Inlines;
    hide IdsOf;
    hide Trim;
    hide TrimEnd;
    hide Outside;
    hide Repeats;
    hide NotV4;
    hide Dedupe;
    hide MatchesOnce;
    hide IsV4;
    hide Distinct;
    var found := FirstMatch(text, 0);
    if found.None? {
      assert forall m :: !MatchesOnce(text, m) by {
        NoMatchNeverOnce(text);
      }
    } else {
      var m := found.value;
      ManyMatches(text, m);
      OnlyMatch(text, m);
      if MatchesOnce(text, m) && Trim(text[m.end..]) == "" {
        StrippedCitesTheBody(text, m);
      }
      StepsIff(IdsOf(m.inner), Inlines(Strip(text, 0), 0), reranked);
    }
  }

  lemma NoMatchNeverOnce(text: string)
    requires FirstMatch(text, 0).None?
    ensures forall m :: !MatchesOnce(text, m)
  {
    hide FirstMatch;
  }

  lemma OnlyMatch(text: string, m: Match)
    requires FirstMatch(text, 0) == Some(m)
    ensures forall other :: MatchesOnce(text, other) ==> other == m
  {
    hide FirstMatch;
  }

  lemma StepsIff(ids: seq<string>, inline: seq<string>, reranked: seq<string>)
    ensures (NotV4(Dedupe(ids + inline)) == [] && Repeats(ids) == [] && Outside(ids, reranked) == []
             && Outside(inline, ids) == [] && Outside(ids, inline) == [])
      <==> (Distinct(ids) && (forall id :: id in ids ==> IsV4(id) && id in reranked)
            && forall id :: id in ids <==> id in inline)
  {
    var union := Dedupe(ids + inline);
    NotV4IsEmptyIff(union);
    RepeatsIsEmptyIff(ids);
    OutsideIsEmptyIff(ids, reranked);
    OutsideIsEmptyIff(inline, ids);
    OutsideIsEmptyIff(ids, inline);
    assert forall id :: id in union <==> id in ids || id in inline;
    hide Outside;
    hide Repeats;
    hide NotV4;
    hide Dedupe;
    hide IsV4;
  }

  // ----- Printing and reading back -----

  function Join(ids: seq<string>): string {
    if ids == [] then "" else if |ids| == 1 then ids[0] else Join(ids[..|ids| - 1]) + ", " + ids[|ids| - 1]
  }

  function SourcesLine(ids: seq<string>): string {
    "Sources: [" + Join(ids) + "]"
  }

  function Print(body: string, ids: seq<string>): string {
    body + "\n" + SourcesLine(ids)
  }

  predicate NoSourcesLine(body: string) {
    forall i :: 0 <= i <= |body| ==> !(LineStart(body, i) && KeywordAt(body, i))
  }

  lemma {:induction false} SplitAtComma(a: string, b: string)
    ensures Split(a + "," + b, ',') == Split(a, ',') + Split(b, ',')
  {
    if a == "" {
      assert a + "," + b == "," + b;
      assert ("," + b)[1..] == b;
    } else {
      assert (a + "," + b)[1..] == a[1..] + "," + b;
      SplitAtComma(a[1..], b);
    }
  }

  lemma {:induction false} SplitWithoutComma(s: string)
    requires ',' !in s
    ensures Split(s, ',') == [s]
  {
    if s != "" {
      assert s[0] in s;
      SplitWithoutComma(s[1..]);
      assert s == [s[0]] + s[1..];
    }
  }

  /** No character that could end a list, a block or a line. */
  predicate PlainId(id: string) {
    && |id| > 0
    && forall i :: 0 <= i < |id| ==> !IsSpace(id[i]) && !IsBreak(id[i]) && id[i] != ',' && id[i] != ']'
  }

  lemma UuidIsPlain(id: string)
    requires IsV4(id)
    ensures PlainId(id)
  {
    forall i | 0 <= i < |id|
      ensures !IsSpace(id[i]) && !IsBreak(id[i]) && id[i] != ',' && id[i] != ']'
    {
      assert id[i] == '-' || IsHex(id[i]);
    }
  }

  lemma TrimPadded(id: string)
    requires PlainId(id)
    ensures Trim(" " + id) == id
  {
    assert (" " + id)[1..] == id;
    assert TrimStart(id) == id;
    assert TrimEnd(id) == id;
  }

  /** Nothing in the printed list ends a line or closes the bracket. */
  predicate PlainList(list: string) {
    && list != "" && !IsSpace(list[0])
    && forall i :: 0 <= i < |list| ==> !IsBreak(list[i]) && list[i] != ']'
  }

  lemma {:induction false} JoinIsPlain(ids: seq<string>)
    requires ids != [] && forall id :: id in ids ==> PlainId(id)
    ensures PlainList(Join(ids))
  {
    var last := ids[|ids| - 1];
    assert PlainId(last);
    if |ids| > 1 {
      JoinIsPlain(ids[..|ids| - 1]);
      var list, init := Join(ids), Join(ids[..|ids| - 1]);
      assert list == init + ", " + last;
      forall i | 0 <= i < |list|
        ensures !IsBreak(list[i]) && list[i] != ']'
      {
        assert list[i] == if i < |init| then init[i] else if i < |init| + 2 then ", "[i - |init|]
                          else last[i - |init| - 2];
      }
    }
  }

  lemma PlainHasNoComma(id: string)
    requires PlainId(id)
    ensures ',' !in id && ',' !in " " + id
  {
  }

  lemma TrimAllAppend(parts: seq<string>, last: string)
    ensures TrimAll(parts + [last]) == TrimAll(parts) + [Trim(last)]
  {
    hide Trim;
  }

  lemma OneMorePart(list: string, id: string)
    requires PlainId(id)
    ensures TrimAll(Split(list + ", " + id, ',')) == TrimAll(Split(list, ',')) + [id]
  {
    PlainHasNoComma(id);
    SplitAtComma(list, " " + id);
    SplitWithoutComma(" " + id);
    TrimPadded(id);
    assert list + ", " + id == list + "," + (" " + id);
    TrimAllAppend(Split(list, ','), " " + id);
  }

  lemma OnePart(id: string)
    requires PlainId(id)
    ensures TrimAll(Split(id, ',')) == [id]
  {
    PlainHasNoComma(id);
    SplitWithoutComma(id);
    TrimmedIsFixed(id);
  }

  lemma JoinStep(ids: seq<string>)
    requires |ids| > 1
    ensures Join(ids) == Join(ids[..|ids| - 1]) + ", " + ids[|ids| - 1]
  {
  }

  lemma {:induction false} JoinReadsBack(ids: seq<string>)
    requires ids != [] && forall id :: id in ids ==> PlainId(id)
    ensures TrimAll(Split(Join(ids), ',')) == ids
  {
    var last := ids[|ids| - 1];
    var init := ids[..|ids| - 1];
    assert PlainId(last);
    assert ids == init + [last];
    if |ids| == 1 {
      OnePart(last);
      assert Join(ids) == last;
    } else {
      JoinStep(ids);
      hide *;
      JoinReadsBack(init);
      OneMorePart(Join(init), last);
    }
  }

  /** The printed text character by character, from the line break on. */
  predicate PrintedAt(text: string, p: nat, list: string) {
    && p >= 1 && |text| == p + 11 + |list|
    && text[p - 1] == '\n'
    && KeywordAt(text, p)
    && text[p + 8] == ' ' && text[p + 9] == '[' && text[|text| - 1] == ']'
    && text[p + 10..|text| - 1] == list
  }

  lemma PrintHasShape(body: string, ids: seq<string>)
    ensures PrintedAt(Print(body, ids), |body| + 1, Join(ids))
    ensures Print(body, ids)[..|body| + 1] == body + "\n"
  {
    hide Join;
  }

  lemma {:induction false} ClosesAt(s: string, i: nat, j: nat)
    requires i <= j < |s| && s[j] == ']' && forall k :: i <= k < j ==> s[k] != ']'
    ensures CloseAt(s, i) == j
    decreases j - i
  {
    if i < j {
      ClosesAt(s, i + 1, j);
    }
  }

  lemma PrintedLineMatches(text: string, p: nat, list: string)
    requires PrintedAt(text, p, list) && PlainList(list)
    ensures MatchAt(text, p) == Some(Match(p, |text|, list))
  {
    forall k | p + 10 <= k < |text| - 1
      ensures text[k] != ']'
    {
      assert text[k] == list[k - p - 10];
    }
    assert SkipBlanks(text, p + 8) == p + 9;
    ClosesAt(text, p + 10, |text| - 1);
    assert SkipBlanks(text, |text|) == |text|;
    hide SkipBlanks;
    hide CloseAt;
    hide KeywordAt;
  }

  lemma KeywordHasNoBreak(s: string, i: nat, k: nat)
    requires KeywordAt(s, i) && i <= k < i + |KEYWORD|
    ensures s[k] != '\n'
  {
    assert s[i + (k - i)] == KEYWORD[k - i];
  }

  lemma NothingMatchesInTheBody(body: string, text: string, k: nat)
    requires NoSourcesLine(body) && k <= |body| < |text| && text[..|body| + 1] == body + "\n"
    ensures MatchAt(text, k) == None
  {
    assert forall i :: 0 <= i < |body| ==> text[i] == text[..|body| + 1][i] == body[i];
    assert text[|body|] == text[..|body| + 1][|body|] == '\n';
    assert LineStart(text, k) == LineStart(body, k);
    if KeywordAt(text, k) {
      if k + |KEYWORD| > |body| {
        KeywordHasNoBreak(text, k, |body|);
      } else {
        assert KeywordAt(body, k);
      }
    }
  }

  lemma PrintedTextMatchesOnce(body: string, ids: seq<string>)
    requires ids != [] && (forall id :: id in ids ==> PlainId(id)) && NoSourcesLine(body)
    ensures var text := Print(body, ids);
      MatchesOnce(text, Match(|body| + 1, |text|, Join(ids)))
  {
    var text := Print(body, ids);
    JoinIsPlain(ids);
    PrintHasShape(body, ids);
    PrintedLineMatches(text, |body| + 1, Join(ids));
    hide PlainId;
    hide Print;
    hide Join;
    forall k | 0 <= k <= |body|
      ensures MatchAt(text, k) == None
    {
      NothingMatchesInTheBody(body, text, k);
    }
    hide MatchAt;
    NoMatchAtEnd(text);
    FirstMatchIsFirst(text, 0);
    hide FirstMatch;
    var first := FirstMatch(text, 0);
    assert first.Some?;
    assert first.value.start == |body| + 1;
  }

  lemma NoMatchAtEnd(text: string)
    ensures FirstMatch(text, |text|).None?
  {
  }

  lemma PrintIsNormal(body: string, ids: seq<string>)
    requires '\r' !in body && PlainList(Join(ids))
    ensures Normalize(Print(body, ids)) == Print(body, ids)
  {
    var list := Join(ids);
    hide Join;
    assert '\r' !in list by {
      assert forall i :: 0 <= i < |list| ==> !IsBreak(list[i]);
    }
    assert '\r' !in "Sources: [";
    NormalizeFixes(Print(body, ids));
  }

  lemma TrimBody(body: string)
    requires TrimEnd(body) == body
    ensures TrimEnd(body + "\n") == body
  {
    TrimEndDropsBlanks(body, "\n");
  }

  lemma PlainListIsNotBlank(list: string)
    requires PlainList(list)
    ensures Trim(list) != ""
  {
  }

  /**
   * Printing a right-trimmed body without a Sources line of its own, followed by a Sources line naming
   * just the entries it cites, is accepted and gives back exactly those ids and that body.
   */
  lemma PrintedAnswerReadsBack(body: string, ids: seq<string>, reranked: seq<string>)
    requires '\r' !in body && NoSourcesLine(body) && TrimEnd(body) == body
    requires Cites(body, ids, reranked)
    ensures Check(Normalize(Print(body, ids)), reranked) == Valid(ids, body)
  {
    forall id | id in ids
      ensures PlainId(id)
    {
      UuidIsPlain(id);
    }
    assert ids != [];
    hide *;
    JoinIsPlain(ids);
    PrintIsNormal(body, ids);
    PrintedTextMatchesOnce(body, ids);
    PrintedParts(body, ids);
    PrintedIsAccepted(Print(body, ids), reranked, ids, body, Match(|body| + 1, |Print(body, ids)|, Join(ids)));
    ValidIff(Print(body, ids), reranked, ids, body);
  }

  lemma PrintedParts(body: string, ids: seq<string>)
    requires ids != [] && (forall id :: id in ids ==> PlainId(id)) && TrimEnd(body) == body
    ensures IdsOf(Join(ids)) == ids
    ensures |body| + 1 <= |Print(body, ids)| && TrimEnd(Print(body, ids)[..|body| + 1]) == body
    ensures Trim(Print(body, ids)[|Print(body, ids)|..]) == ""
  {
    JoinIsPlain(ids);
    JoinReadsBack(ids);
    PlainListIsNotBlank(Join(ids));
    PrintHasShape(body, ids);
    TrimBody(body);
    hide Join;
    hide PlainId;
    hide Split;
    assert Print(body, ids)[|Print(body, ids)|..] == "";
  }

  lemma PrintedIsAccepted(text: string, reranked: seq<string>, ids: seq<string>, body: string, m: Match)
    requires MatchesOnce(text, m) && IdsOf(m.inner) == ids && m.start <= |text| && body == TrimEnd(text[..m.start])
    requires Trim(text[m.end..]) == "" && Cites(body, ids, reranked)
    ensures Accepted(text, reranked, ids, body)
  {
    hide MatchesOnce;
    hide IdsOf;
    hide Trim;
    hide TrimEnd;
  }

  lemma AcceptedBody(text: string, reranked: seq<string>, ids: seq<string>, body: string)
    requires Accepted(text, reranked, ids, body) && '\r' !in text
    ensures '\r' !in body && TrimEnd(body) == body && Cites(body, ids, reranked)
  {
    hide IdsOf;
    hide Cites;
    hide Trim;
    var m: Match :| MatchesOnce(text, m) && body == TrimEnd(text[..m.start]);
    assert body <= text[..m.start];
    assert forall i :: 0 <= i < |body| ==> body[i] == text[..m.start][i] == text[i];
    TrimmedEndIsFixed(body);
  }

  /** An accepted answer survives being reprinted from what was read off it. */
  lemma AcceptedAnswerReprints(answer: string, reranked: seq<string>)
    requires Check(Normalize(answer), reranked).Valid?
    requires NoSourcesLine(Check(Normalize(answer), reranked).body)
    ensures var v := Check(Normalize(answer), reranked);
      Check(Normalize(Print(v.body, v.ids)), reranked) == v
  {
    hide *;
    var text := Normalize(answer);
    var v := Check(text, reranked);
    ValidIff(text, reranked, v.ids, v.body);
    AcceptedBody(text, reranked, v.ids, v.body);
    PrintedAnswerReadsBack(v.body, v.ids, reranked);
  }

  lemma TrimmedEndIsFixed(s: string)
    requires s == "" || !IsSpace(s[|s| - 1])
    ensures TrimEnd(s) == s
  {
  }
}
