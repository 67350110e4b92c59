/** Bulk tag operations (lib/tags.ts): rename, delete and merge over every entry that carries a tag. */
module TagOps {
  import opened JsText
  import opened Options

  /** A uuid as the 128-bit number it is ordered by. */
  type EntryId = nat

  /** The columns a tag operation must carry over untouched. */
  datatype Fields = Fields(title: string, category: string, sourcePointer: string, verifiedAt: int, sensitivity: string)

  /** `version` is the number of `entries_versions` rows. */
  datatype Entry = Entry(fields: Fields, tags: seq<string>, body: string, version: nat)

  type Table = map<EntryId, Entry>

  // ----- Tag text -----

  const MAX_TAG_LENGTH := 64

  datatype Field = From | To | Tag

  datatype Code = Empty | TooLong | ControlChar | Niqqud | CommaOrSemicolon | ToInFrom | EmptyArray | DuplicateInFrom

  datatype Verdict = Fine | Refused(code: Code)

  predicate IsControl(c: char) {
    c <= '\U{001F}' || c == '\U{007F}'
  }

  /** The Hebrew combining marks; the visible punctuation between them is allowed. */
  predicate IsNiqqud(c: char) {
    '\U{0591}' <= c <= '\U{05C7}' && c !in {'\U{05BE}', '\U{05C0}', '\U{05C3}', '\U{05C6}'}
  }

  /** replace(/\s+/g, " ") */
  function Collapse(s: string): (r: string)
    ensures forall i :: 0 <= i < |r| && IsSpace(r[i]) ==> r[i] == ' '
    ensures s != "" && !IsSpace(s[0]) ==> r != "" && r[0] == s[0]
    ensures s != "" && IsSpace(s[0]) ==> r != "" && r[0] == ' '
    ensures s != "" && !IsSpace(s[|s| - 1]) ==> r != "" && !IsSpace(r[|r| - 1])
    ensures forall i :: 0 < i < |r| ==> !IsSpace(r[i - 1]) || !IsSpace(r[i])
    ensures s == "" ==> r == ""
  {
    if s == "" then ""
    else if !IsSpace(s[0]) then
      var rest := Collapse(s[1..]);
      assert s[1..] != "" ==> s[|s| - 1] == s[1..][|s[1..]| - 1];
      [s[0]] + rest
    else if |s| > 1 && IsSpace(s[1]) then
      assert s[|s| - 1] == s[1..][|s[1..]| - 1];
      Collapse(s[1..])
    else
      assert s[1..] != "" ==> s[|s| - 1] == s[1..][|s[1..]| - 1];
      " " + Collapse(s[1..])
  }

  /** `nfc` is the Unicode normalisation. */
  function NormalizeTag(nfc: string -> string, raw: string): string {
    Collapse(Trim(nfc(raw)))
  }

  predicate Normal(s: string) {
    && (s == "" || (!IsSpace(s[0]) && !IsSpace(s[|s| - 1])))
    && (forall i :: 0 <= i < |s| && IsSpace(s[i]) ==> s[i] == ' ')
    && (forall i :: 0 < i < |s| ==> !IsSpace(s[i - 1]) || !IsSpace(s[i]))
  }

  function ValidateStrict(s: string): Verdict {
    if s == "" then Refused(Empty)
    else if |s| > MAX_TAG_LENGTH then Refused(TooLong)
    else if exists i :: 0 <= i < |s| && IsControl(s[i]) then Refused(ControlChar)
    else if exists i :: 0 <= i < |s| && IsNiqqud(s[i]) then Refused(Niqqud)
    else if ',' in s || ';' in s then Refused(CommaOrSemicolon)
    else Fine
  }

  function ValidateLoose(s: string): Verdict {
    if s == "" then Refused(Empty)
    else if '\0' in s then Refused(ControlChar)
    else if |s| > MAX_TAG_LENGTH then Refused(TooLong)
    else Fine
  }

  lemma {:induction false} CollapseKeepsNormal(s: string)
    requires Normal(s)
    ensures Collapse(s) == s
    decreases |s|
  {
    CollapseSpaced(s);
  }

  lemma {:induction false} CollapseSpaced(s: string)
    requires forall i :: 0 <= i < |s| && IsSpace(s[i]) ==> s[i] == ' '
    requires forall i :: 0 < i < |s| ==> !IsSpace(s[i - 1]) || !IsSpace(s[i])
    ensures Collapse(s) == s
    decreases |s|
  {
    if s != "" {
      var t := s[1..];
      assert forall i :: 0 <= i < |t| ==> t[i] == s[i + 1];
      CollapseSpaced(t);
      assert s == [s[0]] + t;
    }
  }

  /** A stored tag is a fixed point: typing it back, however padded with blanks, finds it again. */
  lemma NormalizeIsStable(nfc: string -> string, raw: string)
    ensures Normal(NormalizeTag(nfc, raw))
    ensures nfc(NormalizeTag(nfc, raw)) == NormalizeTag(nfc, raw) ==>
      NormalizeTag(nfc, NormalizeTag(nfc, raw)) == NormalizeTag(nfc, raw)
  {
    var s := NormalizeTag(nfc, raw);
    assert Normal(s);
    TrimmedIsFixed(s);
    CollapseKeepsNormal(s);
  }

  // ----- What an operation does to one list of tags -----

  /** `to` is absent for a delete. */
  datatype Op = Op(sources: set<string>, to: Option<string>)

  predicate ValidOp(op: Op) {
    op.to.Some? ==> op.to.value !in op.sources
  }

  predicate HasSource(op: Op, tags: seq<string>) {
    exists i :: 0 <= i < |tags| && tags[i] in op.sources
  }

  function Replace(tags: seq<string>, sources: set<string>, to: string): (r: seq<string>)
    ensures |r| == |tags|
    ensures forall i :: 0 <= i < |tags| ==> r[i] == if tags[i] in sources then to else tags[i]
  {
    if tags == [] then [] else [if tags[0] in sources then to else tags[0]] + Replace(tags[1..], sources, to)
  }

  /** filter((t) => t not in sources) */
  function Drop(tags: seq<string>, sources: set<string>): (r: seq<string>)
    ensures forall t :: t in r <==> t in tags && t !in sources
    ensures |r| <= |tags|
  {
    if tags == [] then []
    else if tags[0] in sources then Drop(tags[1..], sources)
    else [tags[0]] + Drop(tags[1..], sources)
  }

  function Transform(op: Op, tags: seq<string>): Option<seq<string>> {
    if !HasSource(op, tags) then None
    else if op.to.None? then Some(Drop(tags, op.sources))
    else Some(Dedupe(Replace(tags, op.sources, op.to.value)))
  }

  /**
   * No source tag survives, every other tag does, the target is there exactly when there is one, and
   * the list really changes, so the array comparison before the update never skips an entry.
   */
  lemma TransformRemovesSources(op: Op, tags: seq<string>)
    requires ValidOp(op) && HasSource(op, tags)
    ensures var out := Transform(op, tags).value;
      && !HasSource(op, out)
      && out != tags
      && (op.to.Some? ==> Distinct(out))
      && forall t :: t in out <==> (t in tags && t !in op.sources) || op.to == Some(t)
  {
    var out := Transform(op, tags).value;
    var k :| 0 <= k < |tags| && tags[k] in op.sources;
    if op.to.Some? {
      var replaced := Replace(tags, op.sources, op.to.value);
      assert replaced[k] == op.to.value;
      forall t
        ensures t in out <==> (t in tags && t !in op.sources) || op.to == Some(t)
      {
        if t in tags && t !in op.sources {
          var i :| 0 <= i < |tags| && tags[i] == t;
          assert replaced[i] == t;
        }
      }
    }
    forall t | t in out
      ensures t !in op.sources
    {
    }
    assert tags[k] in tags && tags[k] !in out;
  }

  // ----- A merge is a chain of renames -----

  function RenameAll(tags: seq<string>, from: seq<string>, to: string): seq<string>
    decreases |from|
  {
    if from == [] then tags
    else
      var renamed := Transform(Op({from[0]}, Some(to)), tags);
      RenameAll(if renamed.None? then tags else renamed.value, from[1..], to)
  }

  function SetOf(from: seq<string>): (s: set<string>)
    ensures forall t :: t in s <==> t in from
  {
    set t | t in from
  }

  lemma {:induction false} DedupeAfterReplace(tags: seq<string>, sources: set<string>, to: string)
    ensures Dedupe(Replace(Dedupe(tags), sources, to)) == Dedupe(Replace(tags, sources, to))
    decreases |tags|
  {
    if tags != [] {
      hide Dedupe;
      hide Replace;
      var init := tags[..|tags| - 1];
      var last := tags[|tags| - 1];
      assert tags == init + [last];
      DedupeAfterReplace(init, sources, to);
      DedupeReplaceAppend(init, last, sources, to);
      DedupeAppend(init, last);
      DedupeReplaceAppend(Dedupe(init), last, sources, to);
      ReplaceMembers(init, Dedupe(init), sources, to);
      ReplacedMember(init, last, sources, to);
    }
  }

  lemma DedupeReplaceAppend(tags: seq<string>, last: string, sources: set<string>, to: string)
    ensures var x := if last in sources then to else last;
      var r := Replace(tags, sources, to);
      Dedupe(Replace(tags + [last], sources, to)) == if x in r then Dedupe(r) else Dedupe(r) + [x]
  {
    ReplaceAppend(tags, last, sources, to);
    DedupeAppend(Replace(tags, sources, to), if last in sources then to else last);
  }

  lemma ReplacedMember(tags: seq<string>, t: string, sources: set<string>, to: string)
    ensures t in tags ==> (if t in sources then to else t) in Replace(tags, sources, to)
  {
    if t in tags {
      var i :| 0 <= i < |tags| && tags[i] == t;
      assert Replace(tags, sources, to)[i] in Replace(tags, sources, to);
    }
  }

  lemma ReplaceAppend(tags: seq<string>, last: string, sources: set<string>, to: string)
    ensures Replace(tags + [last], sources, to) == Replace(tags, sources, to) + [if last in sources then to else last]
  {
  }

  lemma ReplaceMembers(a: seq<string>, b: seq<string>, sources: set<string>, to: string)
    requires forall t :: t in a <==> t in b
    ensures forall t :: t in Replace(a, sources, to) <==> t in Replace(b, sources, to)
  {
    ReplaceMembersOneWay(a, b, sources, to);
    ReplaceMembersOneWay(b, a, sources, to);
  }

  lemma ReplaceMembersOneWay(a: seq<string>, b: seq<string>, sources: set<string>, to: string)
    requires forall t :: t in a ==> t in b
    ensures forall t :: t in Replace(a, sources, to) ==> t in Replace(b, sources, to)
  {
    forall t | t in Replace(a, sources, to)
      ensures t in Replace(b, sources, to)
    {
      var i :| 0 <= i < |a| && Replace(a, sources, to)[i] == t;
      assert a[i] in b;
      var j :| 0 <= j < |b| && b[j] == a[i];
      assert Replace(b, sources, to)[j] == t;
    }
  }

  /** Replacing by one source after another is replacing by all of them, duplicates aside. */
  lemma {:induction false} RenamesCompose(tags: seq<string>, from: seq<string>, to: string)
    requires to !in from && from != []
    ensures Dedupe(RenameAll(tags, from, to)) == Dedupe(Replace(tags, SetOf(from), to))
    decreases |from|
  {
    var first := Op({from[0]}, Some(to));
    var next := if Transform(first, tags).None? then tags else Transform(first, tags).value;
    var once := Replace(tags, {from[0]}, to);
    var rest := SetOf(from[1..]);
    assert Transform(first, tags).None? ==> once == tags;
    DedupeTwice(once);
    assert Dedupe(next) == Dedupe(once);
    assert RenameAll(tags, from, to) == RenameAll(next, from[1..], to);
    assert Replace(once, rest, to) == Replace(tags, SetOf(from), to) by {
      ReplaceTwice(tags, from, to);
    }
    hide Transform;
    hide Replace;
    if |from| > 1 {
      RenamesCompose(next, from[1..], to);
      hide RenameAll;
      hide Dedupe;
      DedupeAfterReplace(next, rest, to);
      DedupeAfterReplace(once, rest, to);
    } else {
      assert RenameAll(next, from[1..], to) == next;
      NothingToReplace(once, rest, to);
    }
  }

  lemma ReplaceTwice(tags: seq<string>, from: seq<string>, to: string)
    requires to !in from && from != []
    ensures Replace(Replace(tags, {from[0]}, to), SetOf(from[1..]), to) == Replace(tags, SetOf(from), to)
  {
    assert forall t :: t in from <==> t == from[0] || t in from[1..];
  }

  lemma NothingToReplace(tags: seq<string>, sources: set<string>, to: string)
    requires sources == {}
    ensures Replace(tags, sources, to) == tags
  {
  }

  lemma {:induction false} RenamesEndDistinct(tags: seq<string>, from: seq<string>, to: string)
    ensures Distinct(tags) ==> Distinct(RenameAll(tags, from, to))
    ensures HasSource(Op(SetOf(from), None), tags) ==> Distinct(RenameAll(tags, from, to))
    ensures !HasSource(Op(SetOf(from), None), tags) ==> RenameAll(tags, from, to) == tags
    decreases |from|
  {
    if from != [] {
      var first := Op({from[0]}, Some(to));
      var next := if Transform(first, tags).None? then tags else Transform(first, tags).value;
      RenamesEndDistinct(next, from[1..], to);
      if HasSource(Op(SetOf(from), None), tags) && Transform(first, tags).None? {
        var i :| 0 <= i < |tags| && tags[i] in SetOf(from);
        assert tags[i] in from[1..];
      }
      if !HasSource(Op(SetOf(from), None), tags) {
        assert forall i :: 0 <= i < |tags| ==> tags[i] !in SetOf(from);
        assert from[0] in SetOf(from) && forall t :: t in SetOf(from[1..]) ==> t in from;
      }
    }
  }

  /** Merging leaves each entry the tags it would have after renaming the sources one by one. */
  lemma MergeIsSequentialRenames(tags: seq<string>, from: seq<string>, to: string)
    requires to !in from && from != []
    ensures var merged := Transform(Op(SetOf(from), Some(to)), tags);
      RenameAll(tags, from, to) == if merged.None? then tags else merged.value
  {
    RenamesEndDistinct(tags, from, to);
    if HasSource(Op(SetOf(from), None), tags) {
      assert HasSource(Op(SetOf(from), Some(to)), tags);
      RenamesCompose(tags, from, to);
      DedupeDistinct(RenameAll(tags, from, to));
    } else {
      assert !HasSource(Op(SetOf(from), Some(to)), tags);
    }
  }

  // ----- One entry -----

  datatype Touched = Skipped | Fails | Changed(entry: Entry)

  /** The update re-derives the body and appends one version; `canon` is scrubbing plus normalisation. */
  function Touch(canon: string -> string, op: Op, entry: Entry): Touched {
    var tags := Transform(op, entry.tags);
    if tags.None? || tags.value == entry.tags then Skipped
    else if canon(entry.body) == "" then Fails
    else Changed(entry.(tags := tags.value, body := canon(entry.body), version := entry.version + 1))
  }

  /** What a finished operation leaves of an entry. */
  function Target(canon: string -> string, op: Op, entry: Entry): Entry {
    var tags := Transform(op, entry.tags);
    if tags.None? then entry
    else entry.(tags := tags.value, body := canon(entry.body), version := entry.version + 1)
  }

  lemma TargetFacts(canon: string -> string, op: Op, entry: Entry)
    requires ValidOp(op)
    ensures var t := Target(canon, op, entry);
      && !HasSource(op, t.tags)
      && Target(canon, op, t) == t
      && t.fields == entry.fields
      && t.version == entry.version + (if HasSource(op, entry.tags) then 1 else 0)
    ensures Touch(canon, op, entry) == Skipped <==> !HasSource(op, entry.tags)
    ensures Touch(canon, op, entry).Changed? ==> Touch(canon, op, entry).entry == Target(canon, op, entry)
  {
    if HasSource(op, entry.tags) {
      TransformRemovesSources(op, entry.tags);
    }
  }

  // ----- Candidates -----

  predicate Tagged(op: Op, table: Table, id: EntryId) {
    id in table && HasSource(op, table[id].tags)
  }

  function TaggedIds(op: Op, table: Table): set<EntryId> {
    set id | id in table && HasSource(op, table[id].tags)
  }

  predicate Ascending(ids: seq<EntryId>) {
    forall i, j :: 0 <= i < j < |ids| ==> ids[i] < ids[j]
  }

  lemma {:induction false} HasLargest(ids: set<EntryId>)
    requires ids != {}
    ensures exists m :: m in ids && forall other :: other in ids ==> other <= m
  {
    var any :| any in ids;
    if ids != {any} {
      var rest := ids - {any};
      HasLargest(rest);
      var m :| m in rest && forall other :: other in rest ==> other <= m;
      assert forall other :: other in ids ==> other == any || other in rest;
      assert (if any > m then any else m) in ids;
    }
  }

  /** ORDER BY id */
  function Ordered(ids: set<EntryId>): (r: seq<EntryId>)
    ensures Ascending(r)
    ensures forall id :: id in r <==> id in ids
  {
    if ids == {} then [] else
      HasLargest(ids);
      var m :| m in ids && forall other :: other in ids ==> other <= m;
      Ordered(ids - {m}) + [m]
  }

  function Candidates(op: Op, table: Table): (ids: seq<EntryId>)
    ensures Ascending(ids)
    ensures forall id :: id in ids <==> Tagged(op, table, id)
  {
    Ordered(TaggedIds(op, table))
  }

  // ----- What else happens while the loop runs -----

  /** Other clients' writes just before an iteration takes its row lock, and whether the iteration fails. */
  datatype Event = Event(edit: map<EntryId, Option<Entry>>, fault: bool)

  type Events = nat -> Event

  function Edited(table: Table, edit: map<EntryId, Option<Entry>>): Table {
    map id | id in table.Keys + edit.Keys && (id in edit ==> edit[id].Some?) ::
      if id in edit then edit[id].value else table[id]
  }

  ghost predicate Unedited(events: Events, id: EntryId) {
    forall i: nat :: id !in events(i).edit
  }

  ghost predicate Quiet(events: Events) {
    forall i: nat :: events(i).edit == map[]
  }

  // ----- Rename and delete: every entry in its own transaction -----

  datatype Swept = Swept(table: Table, affected: seq<EntryId>, failed: bool)

  /** One entry in the transaction's view: an error, a row that is gone or has lost its tag, or a change. */
  function TouchRow(canon: string -> string, op: Op, view: Table, id: EntryId, fault: bool): Touched {
    if fault then Fails else if id !in view then Skipped else Touch(canon, op, view[id])
  }

  /** Entry after entry, stopping at the first failure; what is committed stays. */
  function Sweep(canon: string -> string, op: Op, table: Table, ids: seq<EntryId>, events: Events, i: nat): Swept
    requires i <= |ids|
    decreases |ids| - i
  {
    if i == |ids| then Swept(table, [], false)
    else
      var now := Edited(table, events(i).edit);
      match TouchRow(canon, op, now, ids[i], events(i).fault)
      case Fails => Swept(now, [], true)
      case Skipped => Sweep(canon, op, now, ids, events, i + 1)
      case Changed(entry) =>
        var rest := Sweep(canon, op, now[ids[i] := entry], ids, events, i + 1);
        rest.(affected := [ids[i]] + rest.affected)
  }

  /** Whatever others do elsewhere, an entry nobody else writes is changed exactly when it is reported. */
  lemma {:induction false} SweepAt(canon: string -> string, op: Op, table: Table, ids: seq<EntryId>, events: Events,
                                   i: nat, id: EntryId)
    requires ValidOp(op) && Ascending(ids) && i <= |ids| && Unedited(events, id)
    ensures var r := Sweep(canon, op, table, ids, events, i);
      && (id in r.table <==> id in table)
      && (id in table ==> r.table[id] == if id in r.affected then Target(canon, op, table[id]) else table[id])
      && (id in r.affected ==> id in ids[i..] && Tagged(op, table, id))
      && (!r.failed && id in ids[i..] && Tagged(op, table, id) ==> id in r.affected)
    decreases |ids| - i
  {
    if i < |ids| {
      var now := Edited(table, events(i).edit);
      assert id !in events(i).edit;
      assert id in now <==> id in table;
      assert ids[i..] == [ids[i]] + ids[i + 1..];
      assert ids[i] !in ids[i + 1..];
      if ids[i] in now {
        TargetFacts(canon, op, now[ids[i]]);
        var next := if Touch(canon, op, now[ids[i]]).Changed? then now[ids[i] := Touch(canon, op, now[ids[i]]).entry]
                    else now;
        hide Touch;
        hide Target;
        hide HasSource;
        SweepAt(canon, op, next, ids, events, i + 1, id);
      } else {
        SweepAt(canon, op, now, ids, events, i + 1, id);
      }
    }
  }

  lemma SweepStep(canon: string -> string, op: Op, table: Table, ids: seq<EntryId>, events: Events, i: nat)
    requires ValidOp(op) && i < |ids| && events(i).edit == map[] && Tagged(op, table, ids[i])
    ensures var r := Sweep(canon, op, table, ids, events, i);
      if events(i).fault || canon(table[ids[i]].body) == "" then r == Swept(table, [], true)
      else
        var rest := Sweep(canon, op, table[ids[i] := Target(canon, op, table[ids[i]])], ids, events, i + 1);
        r == rest.(affected := [ids[i]] + rest.affected)
  {
    assert Edited(table, events(i).edit) == table;
    TargetFacts(canon, op, table[ids[i]]);
    TransformRemovesSources(op, table[ids[i]].tags);
    hide HasSource;
  }

  lemma SweepEnd(canon: string -> string, op: Op, table: Table, ids: seq<EntryId>, events: Events)
    ensures Sweep(canon, op, table, ids, events, |ids|) == Swept(table, [], false)
  {
  }

  /** `r` dealt with the next entries of `ids` in order and failed iff it did not deal with all. */
  predicate DealtInOrder(r: Swept, ids: seq<EntryId>, i: nat) {
    && i + |r.affected| <= |ids|
    && r.affected == ids[i..i + |r.affected|]
    && (r.failed <==> i + |r.affected| < |ids|)
  }

  lemma DealtWithOneMore(r: Swept, ids: seq<EntryId>, i: nat)
    requires i < |ids| && DealtInOrder(r, ids, i + 1)
    ensures DealtInOrder(r.(affected := [ids[i]] + r.affected), ids, i)
  {
    assert [ids[i]] + ids[i + 1..i + 1 + |r.affected|] == ids[i..i + 1 + |r.affected|];
  }

  lemma StillTagged(op: Op, table: Table, ids: seq<EntryId>, i: nat, entry: Entry)
    requires Ascending(ids) && i < |ids|
    requires forall j :: i <= j < |ids| ==> Tagged(op, table, ids[j])
    ensures forall j :: i + 1 <= j < |ids| ==> Tagged(op, table[ids[i] := entry], ids[j])
  {
    hide HasSource;
  }

  /** With nobody else writing, the entries changed are a prefix of the candidates, proper iff it failed. */
  lemma {:induction false} SweepChangesAPrefix(canon: string -> string, op: Op, table: Table, ids: seq<EntryId>,
                                               events: Events, i: nat)
    requires ValidOp(op) && Ascending(ids) && i <= |ids| && Quiet(events)
    requires forall j :: i <= j < |ids| ==> Tagged(op, table, ids[j])
    ensures DealtInOrder(Sweep(canon, op, table, ids, events, i), ids, i)
    decreases |ids| - i
  {
    hide Sweep;
    hide Target;
    hide HasSource;
    hide Ascending;
    if i == |ids| {
      SweepEnd(canon, op, table, ids, events);
    } else {
      assert events(i).edit == map[];
      SweepStep(canon, op, table, ids, events, i);
      if !events(i).fault && canon(table[ids[i]].body) != "" {
        hide DealtInOrder;
        StillTagged(op, table, ids, i, Target(canon, op, table[ids[i]]));
        hide Tagged;
        var next := table[ids[i] := Target(canon, op, table[ids[i]])];
        SweepChangesAPrefix(canon, op, next, ids, events, i + 1);
        DealtWithOneMore(Sweep(canon, op, next, ids, events, i + 1), ids, i);
      }
    }
  }

  /** The table once every tagged entry has been dealt with. */
  function Goal(canon: string -> string, op: Op, table: Table): Table {
    map id | id in table :: Target(canon, op, table[id])
  }

  function Attempt(canon: string -> string, op: Op, table: Table, events: Events): Swept {
    Sweep(canon, op, table, Candidates(op, table), events, 0)
  }

  lemma QuietIsUnedited(events: Events, id: EntryId)
    requires Quiet(events)
    ensures Unedited(events, id)
  {
    assert forall i: nat :: events(i).edit == map[];
  }

  /** Entry `id` after an attempt: changed exactly if reported, and still, or already, bound for its target. */
  predicate OnCourse(canon: string -> string, op: Op, table: Table, r: Swept, id: EntryId) {
    && (id in r.table <==> id in table)
    && (id in table ==>
          && r.table[id] == (if id in r.affected then Target(canon, op, table[id]) else table[id])
          && Target(canon, op, r.table[id]) == Target(canon, op, table[id])
          && (!r.failed ==> r.table[id] == Target(canon, op, table[id])))
  }

  lemma AttemptAt(canon: string -> string, op: Op, table: Table, events: Events, id: EntryId)
    requires ValidOp(op) && Quiet(events)
    ensures OnCourse(canon, op, table, Attempt(canon, op, table, events), id)
  {
    var ids := Candidates(op, table);
    QuietIsUnedited(events, id);
    SweepAt(canon, op, table, ids, events, 0, id);
    assert ids[0..] == ids;
    hide Sweep;
    hide Target;
    hide HasSource;
    if id in table {
      TargetFacts(canon, op, table[id]);
      UntaggedIsDone(canon, op, table[id]);
    }
  }

  lemma AttemptDealsInOrder(canon: string -> string, op: Op, table: Table, events: Events)
    requires ValidOp(op) && Quiet(events)
    ensures DealtInOrder(Attempt(canon, op, table, events), Candidates(op, table), 0)
  {
    SweepChangesAPrefix(canon, op, table, Candidates(op, table), events, 0);
    hide Sweep;
    hide DealtInOrder;
  }

  lemma GoalFromOnCourse(canon: string -> string, op: Op, table: Table, r: Swept)
    requires forall id :: OnCourse(canon, op, table, r, id)
    ensures r.table.Keys == table.Keys
    ensures forall id :: id in table ==>
      r.table[id] == if id in r.affected then Target(canon, op, table[id]) else table[id]
    ensures Goal(canon, op, r.table) == Goal(canon, op, table)
    ensures !r.failed ==> r.table == Goal(canon, op, table)
  {
    hide Target;
    forall id
      ensures id in r.table <==> id in table
      ensures id in table ==>
        && r.table[id] == (if id in r.affected then Target(canon, op, table[id]) else table[id])
        && Target(canon, op, r.table[id]) == Target(canon, op, table[id])
        && (!r.failed ==> r.table[id] == Target(canon, op, table[id]))
    {
      assert OnCourse(canon, op, table, r, id);
    }
  }

  /** A failed attempt changed exactly a prefix of its candidates and left the way to the goal open. */
  lemma AttemptStaysOnCourse(canon: string -> string, op: Op, table: Table, events: Events)
    requires ValidOp(op) && Quiet(events)
    ensures var r := Attempt(canon, op, table, events);
      var ids := Candidates(op, table);
      && |r.affected| <= |ids| && r.affected == ids[..|r.affected|]
      && (r.failed <==> |r.affected| < |ids|)
      && r.table.Keys == table.Keys
      && (forall id :: id in table ==>
            r.table[id] == if id in r.affected then Target(canon, op, table[id]) else table[id])
      && Goal(canon, op, r.table) == Goal(canon, op, table)
      && (!r.failed ==> r.table == Goal(canon, op, table))
  {
    hide Attempt;
    hide Candidates;
    hide Target;
    hide Goal;
    hide OnCourse;
    AttemptDealsInOrder(canon, op, table, events);
    var r := Attempt(canon, op, table, events);
    forall id
      ensures OnCourse(canon, op, table, r, id)
    {
      AttemptAt(canon, op, table, events, id);
    }
    GoalFromOnCourse(canon, op, table, r);
  }

  lemma UntaggedIsDone(canon: string -> string, op: Op, entry: Entry)
    ensures !HasSource(op, entry.tags) ==> Target(canon, op, entry) == entry
  {
  }

  /** One attempt after another on whatever the previous one left. */
  function Retry(canon: string -> string, op: Op, table: Table, attempts: seq<Events>): Swept
    requires attempts != []
    decreases |attempts|
  {
    var first := Attempt(canon, op, table, attempts[0]);
    if |attempts| == 1 then first else Retry(canon, op, first.table, attempts[1..])
  }

  /**
   * However many attempts broke off half-way, the first one to succeed reaches exactly what a single
   * uninterrupted run would have: each tagged entry with one more version, every other entry as it was.
   */
  lemma {:induction false} RetriesReachTheGoal(canon: string -> string, op: Op, table: Table, attempts: seq<Events>)
    requires ValidOp(op) && attempts != [] && forall k :: 0 <= k < |attempts| ==> Quiet(attempts[k])
    ensures var r := Retry(canon, op, table, attempts);
      && Goal(canon, op, r.table) == Goal(canon, op, table)
      && (!r.failed ==> r.table == Goal(canon, op, table))
    decreases |attempts|
  {
    AttemptStaysOnCourse(canon, op, table, attempts[0]);
    if |attempts| > 1 {
      RetriesReachTheGoal(canon, op, Attempt(canon, op, table, attempts[0]).table, attempts[1..]);
    }
  }

  lemma GoalBumpsOnce(canon: string -> string, op: Op, table: Table, id: EntryId)
    requires ValidOp(op) && id in table
    ensures var done := Goal(canon, op, table)[id];
      && done.fields == table[id].fields
      && done.version == table[id].version + (if HasSource(op, table[id].tags) then 1 else 0)
      && !HasSource(op, done.tags)
      && (!HasSource(op, table[id].tags) ==> done == table[id])
  {
    TargetFacts(canon, op, table[id]);
    UntaggedIsDone(canon, op, table[id]);
  }

  // ----- Merge: all entries in one transaction -----

  datatype Merged = Committed(table: Table, affected: seq<EntryId>) | RolledBack(table: Table)

  /**
   * `table` is what is committed, `writes` what this transaction has written; rows it has locked wait for
   * it, so nobody else's edit reaches them. The last event is the one of the final audit update.
   */
  function Gather(canon: string -> string, op: Op, table: Table, locked: set<EntryId>, writes: Table,
                  ids: seq<EntryId>, events: Events, i: nat): Merged
    requires i <= |ids|
    decreases |ids| - i
  {
    var now := Edited(table, events(i).edit - locked);
    if events(i).fault then RolledBack(now)
    else if i == |ids| then Committed(now + writes, [])
    else if ids[i] !in now then Gather(canon, op, now, locked, writes, ids, events, i + 1)
    else
      match Touch(canon, op, (now + writes)[ids[i]])
      case Skipped => Gather(canon, op, now, locked + {ids[i]}, writes, ids, events, i + 1)
      case Fails => RolledBack(now)
      case Changed(entry) =>
        var rest := Gather(canon, op, now, locked + {ids[i]}, writes[ids[i] := entry], ids, events, i + 1);
        if rest.RolledBack? then rest else rest.(affected := [ids[i]] + rest.affected)
  }

  /** Locked rows only, none of which still carries a source. */
  predicate HeldClean(op: Op, table: Table, locked: set<EntryId>, writes: Table) {
    && writes.Keys <= locked
    && forall id :: id in locked ==> id in table && !HasSource(op, (table + writes)[id].tags)
  }

  /** Held rows are clean when the transaction commits, whatever others have been trying to write. */
  lemma {:induction false} GatherKeepsHeldClean(canon: string -> string, op: Op, table: Table, locked: set<EntryId>,
                                                writes: Table, ids: seq<EntryId>, events: Events, i: nat, id: EntryId)
    requires ValidOp(op) && i <= |ids| && HeldClean(op, table, locked, writes)
    ensures var r := Gather(canon, op, table, locked, writes, ids, events, i);
      r.Committed? && (id in locked || id in r.affected) ==> id in r.table && !HasSource(op, r.table[id].tags)
    decreases |ids| - i
  {
    var now := Edited(table, events(i).edit - locked);
    assert forall k :: k in locked ==> k in now && now[k] == table[k];
    assert HeldClean(op, now, locked, writes);
    if !events(i).fault && i < |ids| {
      if ids[i] !in now {
        GatherKeepsHeldClean(canon, op, now, locked, writes, ids, events, i + 1, id);
      } else {
        TargetFacts(canon, op, (now + writes)[ids[i]]);
        match Touch(canon, op, (now + writes)[ids[i]])
        case Fails =>
        case Skipped =>
          GatherKeepsHeldClean(canon, op, now, locked + {ids[i]}, writes, ids, events, i + 1, id);
        case Changed(entry) =>
          GatherKeepsHeldClean(canon, op, now, locked + {ids[i]}, writes[ids[i] := entry], ids, events, i + 1, id);
      }
    }
  }

  /** An entry nobody else writes: untouched by a roll-back, and by a commit changed exactly when reported. */
  lemma {:induction false} GatherAt(canon: string -> string, op: Op, table: Table, locked: set<EntryId>,
                                    writes: Table, ids: seq<EntryId>, events: Events, i: nat, id: EntryId)
    requires ValidOp(op) && Ascending(ids) && i <= |ids| && Unedited(events, id)
    requires writes.Keys <= locked && locked !! SetOfIds(ids[i..])
    ensures var r := Gather(canon, op, table, locked, writes, ids, events, i);
      && (r.RolledBack? ==>
            (id in r.table <==> id in table) && (id in table ==> r.table[id] == table[id]))
      && (r.Committed? ==>
            && (id in r.table <==> id in table || id in writes)
            && (id in r.affected ==> id in ids[i..] && Tagged(op, table, id) && id !in writes)
            && (id in writes ==> r.table[id] == writes[id])
            && (id in table && id !in writes ==>
                  r.table[id] == if id in r.affected then Target(canon, op, table[id]) else table[id])
            && (id in ids[i..] && Tagged(op, table, id) ==> id in r.affected))
    decreases |ids| - i
  {
    var now := Edited(table, events(i).edit - locked);
    assert id !in events(i).edit;
    assert id in now <==> id in table;
    if !events(i).fault && i < |ids| {
      assert ids[i..] == [ids[i]] + ids[i + 1..];
      assert ids[i] !in ids[i + 1..];
      assert ids[i] in SetOfIds(ids[i..]);
      assert SetOfIds(ids[i + 1..]) <= SetOfIds(ids[i..]);
      if ids[i] !in now {
        GatherAt(canon, op, now, locked, writes, ids, events, i + 1, id);
      } else {
        TargetFacts(canon, op, now[ids[i]]);
        assert (now + writes)[ids[i]] == now[ids[i]];
        match Touch(canon, op, now[ids[i]])
        case Fails =>
        case Skipped =>
          GatherAt(canon, op, now, locked + {ids[i]}, writes, ids, events, i + 1, id);
        case Changed(entry) =>
          GatherAt(canon, op, now, locked + {ids[i]}, writes[ids[i] := entry], ids, events, i + 1, id);
      }
    }
  }

  /** Just the other clients' writes of the events from `i` on, each without the rows of its mask. */
  function OthersOnly(table: Table, events: Events, i: nat, masks: seq<set<EntryId>>): Table
    decreases |masks|
  {
    if masks == [] then table
    else OthersOnly(Edited(table, events(i).edit - masks[0]), events, i + 1, masks[1..])
  }

  /** A rolled-back merge leaves no trace of its own: the table is what the others made of it, waiting rows aside. */
  lemma {:induction false} RollBackLeavesOthersWrites(
      canon: string -> string, op: Op, table: Table, locked: set<EntryId>, writes: Table, ids: seq<EntryId>,
      events: Events, i: nat) returns (masks: seq<set<EntryId>>)
    requires i <= |ids|
    ensures var r := Gather(canon, op, table, locked, writes, ids, events, i);
      r.RolledBack? ==> r.table == OthersOnly(table, events, i, masks)
    ensures forall m :: m in masks ==> locked <= m <= locked + SetOfIds(ids)
    decreases |ids| - i
  {
    var now := Edited(table, events(i).edit - locked);
    var rest: seq<set<EntryId>> := [];
    if !events(i).fault && i < |ids| {
      if ids[i] !in now {
        rest := RollBackLeavesOthersWrites(canon, op, now, locked, writes, ids, events, i + 1);
      } else {
        var held := locked + {ids[i]};
        match Touch(canon, op, (now + writes)[ids[i]])
        case Fails =>
        case Skipped =>
          rest := RollBackLeavesOthersWrites(canon, op, now, held, writes, ids, events, i + 1);
        case Changed(entry) =>
          rest := RollBackLeavesOthersWrites(canon, op, now, held, writes[ids[i] := entry], ids, events, i + 1);
      }
    }
    masks := [locked] + rest;
    assert masks[1..] == rest;
    hide Touch;
    hide Edited;
  }

  function SetOfIds(ids: seq<EntryId>): set<EntryId> {
    set id | id in ids
  }

  function MergeAttempt(canon: string -> string, op: Op, table: Table, events: Events): Merged {
    Gather(canon, op, table, {}, map[], Candidates(op, table), events, 0)
  }

  /** Concurrent edits or not: what a committed merge reports no longer carries a source tag. */
  lemma MergeLeavesReportedClean(canon: string -> string, op: Op, table: Table, events: Events, id: EntryId)
    requires ValidOp(op)
    ensures var r := MergeAttempt(canon, op, table, events);
      r.Committed? && id in r.affected ==> id in r.table && !HasSource(op, r.table[id].tags)
  {
    GatherKeepsHeldClean(canon, op, table, {}, map[], Candidates(op, table), events, 0, id);
  }

  /** With nobody else writing, a merge changes nothing at all or reaches the goal: no source tag anywhere. */
  lemma MergeIsAllOrNothing(canon: string -> string, op: Op, table: Table, events: Events)
    requires ValidOp(op) && Quiet(events)
    ensures var r := MergeAttempt(canon, op, table, events);
      && (r.RolledBack? ==> r.table == table)
      && (r.Committed? ==>
            && r.table == Goal(canon, op, table)
            && (forall id :: id in r.table ==> !HasSource(op, r.table[id].tags))
            && (forall id :: id in r.affected <==> Tagged(op, table, id)))
  {
    var ids := Candidates(op, table);
    var r := MergeAttempt(canon, op, table, events);
    hide Gather;
    hide HasSource;
    hide Target;
    hide Candidates;
    assert SetOfIds(ids[0..]) !! {};
    forall id
      ensures id in r.table <==> id in table
      ensures id in table && r.RolledBack? ==> r.table[id] == table[id]
      ensures id in table && r.Committed? ==> r.table[id] == Target(canon, op, table[id])
      ensures id in table && r.Committed? ==> !HasSource(op, r.table[id].tags)
      ensures r.Committed? ==> (id in r.affected <==> Tagged(op, table, id))
    {
      QuietIsUnedited(events, id);
      GatherAt(canon, op, table, {}, map[], ids, events, 0, id);
      assert ids[0..] == ids;
      if id in table {
        TargetFacts(canon, op, table[id]);
        UntaggedIsDone(canon, op, table[id]);
      }
    }
  }

  // ----- The operations -----

  const AFFECTED_IDS_CAP := 1000

  datatype Kind = TagRename | TagDelete | TagMerge

  datatype AuditRow = AuditRow(
    kind: Kind, from: seq<string>, to: string, ids: seq<EntryId>, count: nat, truncated: Option<nat>, partial: bool)

  /** The audit payload lists at most a thousand ids and says how many it left out. */
  function Payload(kind: Kind, from: seq<string>, to: string, affected: seq<EntryId>, partial: bool): (row: AuditRow)
    ensures row.ids <= affected && |row.ids| <= AFFECTED_IDS_CAP
    ensures |row.ids| + (if row.truncated.Some? then row.truncated.value else 0) == row.count == |affected|
    ensures row.truncated.Some? <==> |affected| > AFFECTED_IDS_CAP
  {
    if |affected| <= AFFECTED_IDS_CAP then AuditRow(kind, from, to, affected, |affected|, None, partial)
    else
      AuditRow(kind, from, to, affected[..AFFECTED_IDS_CAP], |affected|, Some(|affected| - AFFECTED_IDS_CAP), partial)
  }

  /** A validation error, a finished operation, or a merge that rolled back; `audit` is the row it wrote. */
  datatype OpResult =
    | Invalid(field: Field, code: Code)
    | Done(audit: nat, affected: seq<EntryId>, partial: bool)
    | MergeRolledBack(audit: nat)

  /** The sources in order: each must pass the loose check and differ from those before it. */
  function FirstBad(from: seq<string>, k: nat): Verdict
    requires k <= |from|
    decreases |from| - k
  {
    if k == |from| then Fine
    else if ValidateLoose(from[k]).Refused? then ValidateLoose(from[k])
    else if from[k] in from[..k] then Refused(DuplicateInFrom)
    else FirstBad(from, k + 1)
  }

  lemma {:induction false} FineSourcesAreDistinct(from: seq<string>, k: nat)
    requires k <= |from| && Distinct(from[..k])
    ensures FirstBad(from, k).Fine? <==> Distinct(from) && forall i :: k <= i < |from| ==> ValidateLoose(from[i]).Fine?
    decreases |from| - k
  {
    if k == |from| {
      assert from[..k] == from;
    } else if ValidateLoose(from[k]).Fine? && from[k] !in from[..k] {
      assert forall i :: 0 <= i < k ==> from[i] in from[..k];
      assert from[..k + 1] == from[..k] + [from[k]];
      FineSourcesAreDistinct(from, k + 1);
    } else if ValidateLoose(from[k]).Fine? {
      var i :| 0 <= i < k && from[i] == from[k];
      assert !Distinct(from);
    }
  }

  function NormalizeAll(nfc: string -> string, raws: seq<string>): (r: seq<string>)
    ensures |r| == |raws|
    ensures forall i :: 0 <= i < |raws| ==> r[i] == NormalizeTag(nfc, raws[i])
  {
    if raws == [] then [] else [NormalizeTag(nfc, raws[0])] + NormalizeAll(nfc, raws[1..])
  }

  class TagStore {
    var entries: Table
    var audit: seq<AuditRow>

    constructor (table: Table)
      ensures entries == table && audit == []
    {
      entries, audit := table, [];
    }

    method OtherClients(edit: map<EntryId, Option<Entry>>)
      modifies this`entries
      ensures entries == Edited(old(entries), edit)
    {
      entries := Edited(entries, edit);
    }

    /** applyTagTransformToEntry in a transaction of its own. */
    method ApplyTransform(canon: string -> string, op: Op, id: EntryId, event: Event) returns (t: Touched)
      modifies this`entries
      ensures var now := Edited(old(entries), event.edit);
        && t == TouchRow(canon, op, now, id, event.fault)
        && entries == if t.Changed? then now[id := t.entry] else now
    {
      OtherClients(event.edit);
      if event.fault {
        return Fails;
      }
      if id !in entries {
        return Skipped;
      }
      t := Touch(canon, op, entries[id]);
      if t.Changed? {
        entries := entries[id := t.entry];
      }
    }

    /** The loop of renameTag and deleteTag: one transaction an entry, stopping at the first error. */
    method ForEachEntry(canon: string -> string, op: Op, candidates: seq<EntryId>, events: Events)
      returns (affected: seq<EntryId>, failed: bool)
      modifies this`entries
      ensures Swept(entries, affected, failed) == Sweep(canon, op, old(entries), candidates, events, 0)
    {
      affected, failed := [], false;
      for i := 0 to |candidates|
        invariant !failed
        invariant var rest := Sweep(canon, op, entries, candidates, events, i);
          Sweep(canon, op, old(entries), candidates, events, 0) == rest.(affected := affected + rest.affected)
      {
        ghost var rest := Sweep(canon, op, entries, candidates, events, i);
        var touched := ApplyTransform(canon, op, candidates[i], events(i));
        hide TouchRow;
        if touched.Fails? {
          failed := true;
          return;
        }
        if touched.Changed? {
          ghost var after := Sweep(canon, op, entries, candidates, events, i + 1);
          assert affected + rest.affected == affected + [candidates[i]] + after.affected;
          affected := affected + [candidates[i]];
        }
      }
    }

    method RenameTag(nfc: string -> string, canon: string -> string, rawFrom: string, rawTo: string, events: Events,
                     finalFault: bool)
      returns (r: OpResult)
      modifies this
      ensures var from, to := NormalizeTag(nfc, rawFrom), NormalizeTag(nfc, rawTo);
        if ValidateLoose(from).Refused? then r == Invalid(From, ValidateLoose(from).code)
        else if ValidateStrict(to).Refused? then r == Invalid(To, ValidateStrict(to).code)
        else r.Done? && r.audit == |old(audit)|
      ensures r.Invalid? ==> entries == old(entries) && audit == old(audit)
      ensures r.Done? ==>
        var from, to := NormalizeTag(nfc, rawFrom), NormalizeTag(nfc, rawTo);
        var swept := Attempt(canon, Op({from}, Some(to)), old(entries), events);
        if from == to || Candidates(Op({from}, Some(to)), old(entries)) == [] then
          && r.affected == [] && !r.partial && entries == old(entries)
          && audit == old(audit) + [Payload(TagRename, [from], to, [], false)]
        else
          && entries == swept.table && r.affected == swept.affected && (r.partial <==> swept.failed || finalFault)
          && audit == old(audit) + [if finalFault then Payload(TagRename, [from], to, [], false)
                                    else Payload(TagRename, [from], to, swept.affected, swept.failed)]
    {
      hide Sweep;
      hide ValidateLoose;
      hide ValidateStrict;
      var from, to := NormalizeTag(nfc, rawFrom), NormalizeTag(nfc, rawTo);
      hide NormalizeTag;
      if ValidateLoose(from).Refused? {
        return Invalid(From, ValidateLoose(from).code);
      }
      if ValidateStrict(to).Refused? {
        return Invalid(To, ValidateStrict(to).code);
      }
      var op := Op({from}, Some(to));
      var candidates := Candidates(op, entries);
      var row := |audit|;
      audit := audit + [Payload(TagRename, [from], to, [], false)];
      if from == to || candidates == [] {
        return Done(row, [], false);
      }
      var affected, failed := ForEachEntry(canon, op, candidates, events);
      if !finalFault {
        audit := audit[row := Payload(TagRename, [from], to, affected, failed)];
      }
      r := Done(row, affected, failed || finalFault);
    }

    method DeleteTag(nfc: string -> string, canon: string -> string, raw: string, events: Events, finalFault: bool)
      returns (r: OpResult)
      modifies this
      ensures var tag := NormalizeTag(nfc, raw);
        if ValidateStrict(tag).Refused? then r == Invalid(Tag, ValidateStrict(tag).code)
        else r.Done? && r.audit == |old(audit)|
      ensures r.Invalid? ==> entries == old(entries) && audit == old(audit)
      ensures r.Done? ==>
        var tag := NormalizeTag(nfc, raw);
        var swept := Attempt(canon, Op({tag}, None), old(entries), events);
        if Candidates(Op({tag}, None), old(entries)) == [] then
          && r.affected == [] && !r.partial && entries == old(entries)
          && audit == old(audit) + [Payload(TagDelete, [tag], "", [], false)]
        else
          && entries == swept.table && r.affected == swept.affected && (r.partial <==> swept.failed || finalFault)
          && audit == old(audit) + [if finalFault then Payload(TagDelete, [tag], "", [], false)
                                    else Payload(TagDelete, [tag], "", swept.affected, swept.failed)]
    {
      hide Sweep;
      hide ValidateStrict;
      var tag := NormalizeTag(nfc, raw);
      hide NormalizeTag;
      if ValidateStrict(tag).Refused? {
        return Invalid(Tag, ValidateStrict(tag).code);
      }
      var op := Op({tag}, None);
      var candidates := Candidates(op, entries);
      var row := |audit|;
      audit := audit + [Payload(TagDelete, [tag], "", [], false)];
      if candidates == [] {
        return Done(row, [], false);
      }
      var affected, failed := ForEachEntry(canon, op, candidates, events);
      if !finalFault {
        audit := audit[row := Payload(TagDelete, [tag], "", affected, failed)];
      }
      r := Done(row, affected, failed || finalFault);
    }

    method NormalizeSources(nfc: string -> string, raws: seq<string>) returns (from: seq<string>, v: Verdict)
      ensures v == FirstBad(NormalizeAll(nfc, raws), 0)
      ensures v.Fine? ==> from == NormalizeAll(nfc, raws)
    {
      hide NormalizeTag;
      hide NormalizeAll;
      hide ValidateLoose;
      from, v := [], Fine;
      ghost var all := NormalizeAll(nfc, raws);
      for i := 0 to |raws|
        invariant from == all[..i] && v.Fine?
        invariant FirstBad(all, 0) == FirstBad(all, i)
      {
        var n := NormalizeTag(nfc, raws[i]);
        assert n == all[i];
        v := ValidateLoose(n);
        if v.Refused? {
          return;
        }
        if n in from {
          v := Refused(DuplicateInFrom);
          return;
        }
        from := from + [n];
        assert from == all[..i + 1];
      }
    }

    /** The loop of mergeTags inside its one transaction, commit or roll-back included. */
    method InOneTransaction(canon: string -> string, op: Op, candidates: seq<EntryId>, events: Events)
      returns (committed: bool, affected: seq<EntryId>)
      modifies this`entries
      ensures var g := Gather(canon, op, old(entries), {}, map[], candidates, events, 0);
        && entries == g.table
        && (committed <==> g.Committed?)
        && (committed ==> affected == g.affected)
    {
      affected := [];
      var locked: set<EntryId>, writes: Table := {}, map[];
      ghost var goal := Gather(canon, op, entries, locked, writes, candidates, events, 0);
      for i := 0 to |candidates|
        invariant var rest := Gather(canon, op, entries, locked, writes, candidates, events, i);
          goal == if rest.RolledBack? then rest else rest.(affected := affected + rest.affected)
      {
        var id := candidates[i];
        OtherClients(events(i).edit - locked);
        if events(i).fault {
          return false, [];
        }
        if id in entries {
          locked := locked + {id};
          match Touch(canon, op, (entries + writes)[id]) {
            case Skipped =>
            case Fails =>
              return false, [];
            case Changed(entry) =>
              writes := writes[id := entry];
              affected := affected + [id];
          }
        }
      }
      OtherClients(events(|candidates|).edit - locked);
      committed := !events(|candidates|).fault;
      if committed {
        entries := entries + writes;
      }
    }

    method MergeTags(nfc: string -> string, canon: string -> string, raws: seq<string>, rawTo: string, events: Events)
      returns (r: OpResult)
      modifies this
      ensures var from, to := NormalizeAll(nfc, raws), NormalizeTag(nfc, rawTo);
        if ValidateStrict(to).Refused? then r == Invalid(To, ValidateStrict(to).code)
        else if raws == [] then r == Invalid(From, EmptyArray)
        else if FirstBad(from, 0).Refused? then r == Invalid(From, FirstBad(from, 0).code)
        else if to in from then r == Invalid(To, ToInFrom)
        else !r.Invalid? && r.audit == |old(audit)|
      ensures r.Invalid? ==> entries == old(entries) && audit == old(audit)
      ensures !r.Invalid? ==>
        var from, to := NormalizeAll(nfc, raws), NormalizeTag(nfc, rawTo);
        var op := Op(SetOf(from), Some(to));
        var merged := MergeAttempt(canon, op, old(entries), events);
        && ValidOp(op)
        && (if Candidates(op, old(entries)) == [] then
              && r == Done(|old(audit)|, [], false) && entries == old(entries)
              && audit == old(audit) + [Payload(TagMerge, from, to, [], false)]
            else if merged.RolledBack? then
              && r == MergeRolledBack(|old(audit)|) && entries == merged.table
              && audit == old(audit) + [Payload(TagMerge, from, to, [], false)]
            else
              && r == Done(|old(audit)|, merged.affected, false) && entries == merged.table
              && audit == old(audit) + [Payload(TagMerge, from, to, merged.affected, false)])
    {
      hide Gather;
      hide ValidateStrict;
      var to := NormalizeTag(nfc, rawTo);
      hide NormalizeTag;
      if ValidateStrict(to).Refused? {
        return Invalid(To, ValidateStrict(to).code);
      }
      if raws == [] {
        return Invalid(From, EmptyArray);
      }
      var from, v := NormalizeSources(nfc, raws);
      hide FirstBad;
      hide NormalizeAll;
      if v.Refused? {
        return Invalid(From, v.code);
      }
      if to in from {
        return Invalid(To, ToInFrom);
      }
      var op := Op(SetOf(from), Some(to));
      var candidates := Candidates(op, entries);
      var row := |audit|;
      audit := audit + [Payload(TagMerge, from, to, [], false)];
      if candidates == [] {
        return Done(row, [], false);
      }
      var committed, affected := InOneTransaction(canon, op, candidates, events);
      if !committed {
        return MergeRolledBack(row);
      }
      audit := audit[row := Payload(TagMerge, from, to, affected, false)];
      r := Done(row, affected, false);
    }
  }
}
