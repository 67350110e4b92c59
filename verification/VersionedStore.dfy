/** Versioned writes (lib/ingest.ts): createEntry and updateEntry as interleaved transactions over entry rows. */
module VersionedStore {
  import opened Options

  type EntryId = string
  type TxnId = nat
  type RowId = nat
  type Vector = seq<real>

  datatype Slice = Slice(index: nat, total: nat, start: nat, stop: nat, tokens: nat)

  /** The columns an `entries_versions` row copies from its entry. */
  datatype Snapshot = Snapshot(title: string, category: string, tags: seq<string>, body: string, sensitivity: string)

  datatype Entry = Entry(now: Snapshot, sourcePointer: string, verifiedAt: int)

  datatype Version = Version(number: nat, snapshot: Snapshot)

  datatype ChunkRow = ChunkRow(row: RowId, sensitivity: string, slice: Slice, vector: Vector)

  datatype AuditRow = AuditRow(entry: EntryId, created: bool, chunkCount: nat)

  datatype Db = Db(
    entries: map<EntryId, Entry>,
    versions: map<EntryId, seq<Version>>,
    chunks: map<EntryId, seq<ChunkRow>>,
    audit: seq<AuditRow>,
    nextRow: RowId)

  // ----- Derivation, before the transaction opens -----

  /** Scrub plus normalisation, and the chunker: any two functions. */
  datatype Text = Text(canon: string -> string, cut: string -> seq<Slice>)

  datatype Embedded = Vectors(vectors: seq<Vector>) | EmbedFails(message: string)

  datatype Draft = Draft(entry: Entry, slices: seq<Slice>, vectors: seq<Vector>)

  datatype Failure = EmptyBody | EmbedderFailed(message: string) | VectorCount | NotFound | Rejected

  datatype Derivation = Derived(draft: Draft) | Refused(failure: Failure)

  function Derive(text: Text, input: Entry, embedded: Embedded): (r: Derivation)
    ensures r.Derived? ==> DraftOk(text, r.draft) && r.draft.entry.now.body == text.canon(input.now.body)
    ensures r.Refused? ==> r.failure != NotFound && r.failure != Rejected
  {
    var body := text.canon(input.now.body);
    if body == "" then
      Refused(EmptyBody)
    else
      match embedded
      case EmbedFails(message) => Refused(EmbedderFailed(message))
      case Vectors(vectors) =>
        var slices := text.cut(body);
        if |vectors| != |slices| then
          Refused(VectorCount)
        else
          Derived(Draft(input.(now := input.now.(body := body)), slices, vectors))
  }

  predicate DraftOk(text: Text, draft: Draft) {
    && draft.slices == text.cut(draft.entry.now.body)
    && |draft.vectors| == |draft.slices|
  }

  // ----- Transactions as programs of statements -----

  datatype Statement =
    | InsertRow | LockRow | ReadMax | InsertVersion | DeleteChunks | UpdateRow | InsertChunks | WriteAudit

  const CREATE := [InsertRow, InsertVersion, InsertChunks, WriteAudit]
  const UPDATE := [LockRow, ReadMax, InsertVersion, DeleteChunks, UpdateRow, InsertChunks, WriteAudit]

  /** What a transaction has written and nobody else can see yet. */
  datatype Writes = Writes(
    entry: Option<Entry>,
    version: Option<Version>,
    deleted: set<RowId>,
    added: seq<ChunkRow>,
    audit: seq<AuditRow>)

  const NO_WRITES := Writes(None, None, {}, [], [])

  datatype Txn = Txn(id: EntryId, creates: bool, draft: Draft, pc: nat, number: nat, writes: Writes)

  /** Committed tables, open transactions, and who holds each entry row. */
  datatype World = World(db: Db, txns: map<TxnId, Txn>, locks: map<EntryId, TxnId>)

  const EMPTY_WORLD := World(Db(map[], map[], map[], [], 0), map[], map[])

  function Program(t: Txn): seq<Statement> {
    if t.creates then CREATE else UPDATE
  }

  function VersionsOf(db: Db, id: EntryId): seq<Version> {
    if id in db.versions then db.versions[id] else []
  }

  function ChunksOf(db: Db, id: EntryId): seq<ChunkRow> {
    if id in db.chunks then db.chunks[id] else []
  }

  /** COALESCE(MAX(version_no), 0) */
  function MaxNumber(rows: seq<Version>): (m: nat)
    ensures forall i :: 0 <= i < |rows| ==> rows[i].number <= m
    ensures rows == [] ==> m == 0
    ensures rows != [] ==> exists i :: 0 <= i < |rows| && rows[i].number == m
  {
    if rows == [] then 0 else
      var rest := MaxNumber(rows[1..]);
      if rows[0].number >= rest then rows[0].number else
        assert rows[1..] != [];
        var i :| 0 <= i < |rows[1..]| && rows[1..][i].number == rest;
        assert rows[i + 1].number == rest;
        rest
  }

  function RowIds(rows: seq<ChunkRow>): set<RowId> {
    set i | 0 <= i < |rows| :: rows[i].row
  }

  function Without(rows: seq<ChunkRow>, gone: set<RowId>): seq<ChunkRow> {
    if rows == [] then []
    else if rows[0].row in gone then Without(rows[1..], gone)
    else [rows[0]] + Without(rows[1..], gone)
  }

  /** chunks(entry_id, sensitivity) REFERENCES entries(id, sensitivity) ON UPDATE CASCADE */
  function Cascade(rows: seq<ChunkRow>, sensitivity: string): seq<ChunkRow> {
    seq(|rows|, i requires 0 <= i < |rows| => rows[i].(sensitivity := sensitivity))
  }

  function NewRows(draft: Draft, nextRow: RowId): seq<ChunkRow>
    requires |draft.vectors| == |draft.slices|
  {
    seq(|draft.slices|, i requires 0 <= i < |draft.slices| =>
      ChunkRow(nextRow + i, draft.entry.now.sensitivity, draft.slices[i], draft.vectors[i]))
  }

  predicate Taken(rows: seq<Version>, number: nat) {
    exists i :: 0 <= i < |rows| && rows[i].number == number
  }

  /** A row lock, or a primary key another open transaction has just inserted, makes the statement wait. */
  predicate Waits(w: World, tid: TxnId)
    requires tid in w.txns && w.txns[tid].pc < |Program(w.txns[tid])|
  {
    var t := w.txns[tid];
    Locking(t) && t.id in w.locks && w.locks[t.id] != tid
  }

  /** The errors a statement can raise: no such row, or a unique violation. */
  predicate Raises(w: World, tid: TxnId)
    requires tid in w.txns && w.txns[tid].pc < |Program(w.txns[tid])|
  {
    var t := w.txns[tid];
    match Program(t)[t.pc]
    case LockRow => t.id !in w.db.entries
    case InsertRow => t.id in w.db.entries
    case InsertVersion => Taken(VersionsOf(w.db, t.id), t.number)
    case _ => false
  }

  /** One statement, seen from inside its transaction: what it computes and what it writes privately. */
  function Wrote(db: Db, t: Txn): (next: Txn)
    requires t.pc < |Program(t)| && |t.draft.vectors| == |t.draft.slices|
    ensures next.id == t.id && next.creates == t.creates && next.draft == t.draft && next.pc == t.pc + 1
  {
    var next := t.(pc := t.pc + 1);
    match Program(t)[t.pc]
    case InsertRow => next.(number := 1, writes := t.writes.(entry := Some(t.draft.entry)))
    case LockRow => next
    case ReadMax => next.(number := MaxNumber(VersionsOf(db, t.id)) + 1)
    case InsertVersion => next.(writes := t.writes.(version := Some(Version(t.number, t.draft.entry.now))))
    case DeleteChunks => next.(writes := t.writes.(deleted := RowIds(ChunksOf(db, t.id))))
    case UpdateRow => next.(writes := t.writes.(entry := Some(t.draft.entry)))
    case InsertChunks => next.(writes := t.writes.(added := NewRows(t.draft, db.nextRow)))
    case WriteAudit =>
      next.(writes := t.writes.(audit := t.writes.audit + [AuditRow(t.id, t.creates, |t.draft.slices|)]))
  }

  /** The statement that takes the row: an insert of the key, or SELECT ... FOR UPDATE. */
  predicate Locking(t: Txn)
    requires t.pc < |Program(t)|
  {
    Program(t)[t.pc] == InsertRow || Program(t)[t.pc] == LockRow
  }

  function Run(w: World, tid: TxnId): World
    requires tid in w.txns && w.txns[tid].pc < |Program(w.txns[tid])|
    requires |w.txns[tid].draft.vectors| == |w.txns[tid].draft.slices|
  {
    var t := w.txns[tid];
    World(if Program(t)[t.pc] == InsertChunks then w.db.(nextRow := w.db.nextRow + |t.draft.slices|) else w.db,
          w.txns[tid := Wrote(w.db, t)],
          if Locking(t) then w.locks[t.id := tid] else w.locks)
  }

  function Release(w: World, tid: TxnId): World {
    w.(txns := w.txns - {tid}, locks := map id | id in w.locks && w.locks[id] != tid :: w.locks[id])
  }

  /** Makes the private writes visible. */
  function Publish(db: Db, id: EntryId, writes: Writes): Db {
    var kept := Without(ChunksOf(db, id), writes.deleted);
    var rows := (if writes.entry.Some? then Cascade(kept, writes.entry.value.now.sensitivity) else kept) + writes.added;
    db.(entries := if writes.entry.Some? then db.entries[id := writes.entry.value] else db.entries,
        versions := if writes.version.Some? then db.versions[id := VersionsOf(db, id) + [writes.version.value]]
                    else db.versions,
        chunks := db.chunks[id := rows],
        audit := db.audit + writes.audit)
  }

  datatype Step =
    | Begin(tid: TxnId, id: EntryId, creates: bool, draft: Draft)
    | Exec(tid: TxnId)
    | Commit(tid: TxnId)
    | Abort(tid: TxnId)

  predicate Enabled(text: Text, w: World, step: Step) {
    match step
    case Begin(tid, _, _, draft) => tid !in w.txns && DraftOk(text, draft)
    case Exec(tid) =>
      && tid in w.txns
      && w.txns[tid].pc < |Program(w.txns[tid])|
      && |w.txns[tid].draft.vectors| == |w.txns[tid].draft.slices|
      && !Waits(w, tid)
      && !Raises(w, tid)
    case Commit(tid) => tid in w.txns && w.txns[tid].pc == |Program(w.txns[tid])|
    case Abort(tid) => tid in w.txns
  }

  function Apply(text: Text, w: World, step: Step): World
    requires Enabled(text, w, step)
  {
    match step
    case Begin(tid, id, creates, draft) => w.(txns := w.txns[tid := Txn(id, creates, draft, 0, 0, NO_WRITES)])
    case Exec(tid) => Run(w, tid)
    case Commit(tid) => Release(w.(db := Publish(w.db, w.txns[tid].id, w.txns[tid].writes)), tid)
    case Abort(tid) => Release(w, tid)
  }

  ghost predicate ValidRun(text: Text, w: World, steps: seq<Step>)
    decreases |steps|
  {
    steps == [] || (Enabled(text, w, steps[0]) && ValidRun(text, Apply(text, w, steps[0]), steps[1..]))
  }

  ghost function Exe(text: Text, w: World, steps: seq<Step>): World
    requires ValidRun(text, w, steps)
    decreases |steps|
  {
    if steps == [] then w else Exe(text, Apply(text, w, steps[0]), steps[1..])
  }

  // ----- What every committed state looks like -----

  /** The chunk rows are exactly the slices of `body`, in order, with the entry's own sensitivity. */
  predicate ChunksMirror(text: Text, now: Snapshot, rows: seq<ChunkRow>) {
    && |rows| == |text.cut(now.body)|
    && forall i :: 0 <= i < |rows| ==> rows[i].slice == text.cut(now.body)[i] && rows[i].sensitivity == now.sensitivity
  }

  predicate Numbered(rows: seq<Version>) {
    forall i :: 0 <= i < |rows| ==> rows[i].number == i + 1
  }

  /** Versions 1..n with the entry equal to version n, and its chunks cut from its current body. */
  predicate Consistent(text: Text, db: Db, id: EntryId) {
    var versions := VersionsOf(db, id);
    && Numbered(versions)
    && (id in db.entries <==> versions != [])
    && (id in db.entries ==>
          && db.entries[id].now == versions[|versions| - 1].snapshot
          && ChunksMirror(text, db.entries[id].now, ChunksOf(db, id)))
    && (id !in db.entries ==> ChunksOf(db, id) == [])
  }

  predicate Holds(w: World, tid: TxnId, id: EntryId) {
    id in w.locks && w.locks[id] == tid
  }

  /** Statement `s` of the transaction's program is behind its program counter. */
  predicate Ran(t: Txn, s: Statement) {
    match s
    case InsertRow => t.creates && t.pc > 0
    case LockRow => !t.creates && t.pc > 0
    case ReadMax => !t.creates && t.pc > 1
    case InsertVersion => t.pc > (if t.creates then 1 else 2)
    case DeleteChunks => !t.creates && t.pc > 3
    case UpdateRow => !t.creates && t.pc > 4
    case InsertChunks => t.pc > (if t.creates then 2 else 5)
    case WriteAudit => t.pc > (if t.creates then 3 else 6)
  }

  /** The private writes at this program counter. */
  predicate WritesOk(db: Db, t: Txn) {
    && t.writes.entry == (if Ran(t, InsertRow) || Ran(t, UpdateRow) then Some(t.draft.entry) else None)
    && t.writes.version == (if Ran(t, InsertVersion) then Some(Version(t.number, t.draft.entry.now)) else None)
    && (Ran(t, DeleteChunks) ==> t.writes.deleted == RowIds(ChunksOf(db, t.id)))
    && (if Ran(t, InsertChunks)
        then |t.writes.added| == |t.draft.slices|
             && forall i :: 0 <= i < |t.writes.added| ==>
                  && t.writes.added[i].slice == t.draft.slices[i]
                  && t.writes.added[i].sensitivity == t.draft.entry.now.sensitivity
        else t.writes.added == [])
    && t.writes.audit == (if Ran(t, WriteAudit) then [AuditRow(t.id, t.creates, |t.draft.slices|)] else [])
  }

  /** What a transaction knows and has written, against the committed tables. */
  predicate HandOk(text: Text, db: Db, t: Txn) {
    && DraftOk(text, t.draft)
    && t.pc <= |Program(t)|
    && (t.pc > 0 ==> (t.creates <==> t.id !in db.entries))
    && (Ran(t, InsertRow) || Ran(t, ReadMax) ==> t.number == |VersionsOf(db, t.id)| + 1)
    && WritesOk(db, t)
  }

  predicate TxnOk(text: Text, w: World, tid: TxnId)
    requires tid in w.txns
  {
    && HandOk(text, w.db, w.txns[tid])
    && (w.txns[tid].pc > 0 ==> Holds(w, tid, w.txns[tid].id))
  }

  predicate LockOk(w: World, id: EntryId)
    requires id in w.locks
  {
    w.locks[id] in w.txns && w.txns[w.locks[id]].id == id && w.txns[w.locks[id]].pc > 0
  }

  ghost predicate AllConsistent(text: Text, db: Db) {
    forall id :: Consistent(text, db, id)
  }

  predicate TxnsOk(text: Text, w: World) {
    forall tid :: tid in w.txns ==> TxnOk(text, w, tid)
  }

  predicate LocksOk(w: World) {
    forall id :: id in w.locks ==> LockOk(w, id)
  }

  ghost predicate Inv(text: Text, w: World) {
    AllConsistent(text, w.db) && TxnsOk(text, w) && LocksOk(w)
  }

  lemma {:induction false} MaxOfNumbered(rows: seq<Version>)
    requires Numbered(rows)
    ensures MaxNumber(rows) == |rows|
  {
    if rows != [] {
      assert rows[|rows| - 1].number == |rows|;
    }
  }

  lemma {:induction false} DeletingAllLeavesNone(rows: seq<ChunkRow>, gone: set<RowId>)
    requires RowIds(rows) <= gone
    ensures Without(rows, gone) == []
  {
    if rows != [] {
      assert rows[0].row in RowIds(rows);
      forall r | r in RowIds(rows[1..])
        ensures r in gone
      {
        var i :| 0 <= i < |rows[1..]| && rows[1..][i].row == r;
        assert rows[i + 1].row in RowIds(rows);
      }
      DeletingAllLeavesNone(rows[1..], gone);
    }
  }

  /** The two databases agree on everything about one entry. */
  predicate SameEntry(a: Db, b: Db, id: EntryId) {
    && VersionsOf(a, id) == VersionsOf(b, id)
    && ChunksOf(a, id) == ChunksOf(b, id)
    && (id in a.entries <==> id in b.entries)
    && (id in a.entries ==> a.entries[id] == b.entries[id])
  }

  lemma ConsistentFrame(text: Text, a: Db, b: Db, id: EntryId)
    requires Consistent(text, a, id) && SameEntry(a, b, id)
    ensures Consistent(text, b, id)
  {
  }

  lemma HandFrame(text: Text, a: Db, b: Db, t: Txn)
    requires HandOk(text, a, t) && SameEntry(a, b, t.id)
    ensures HandOk(text, b, t)
  {
  }

  lemma TxnFrame(text: Text, w: World, v: World, tid: TxnId)
    requires tid in w.txns && tid in v.txns && w.txns[tid] == v.txns[tid]
    requires TxnOk(text, w, tid) && SameEntry(w.db, v.db, w.txns[tid].id)
    requires Holds(w, tid, w.txns[tid].id) ==> Holds(v, tid, w.txns[tid].id)
    ensures TxnOk(text, v, tid)
  {
    HandFrame(text, w.db, v.db, w.txns[tid]);
    hide HandOk;
  }

  lemma FirstStatementLocks(t: Txn)
    requires t.pc < |Program(t)|
    ensures t.pc == 0 <==> Locking(t)
  {
  }

  /** Between two statements a transaction's own lock entry changes only at the first. */
  lemma ExecLocks(text: Text, w: World, tid: TxnId)
    requires Inv(text, w) && Enabled(text, w, Exec(tid))
    ensures Run(w, tid).locks == w.locks[w.txns[tid].id := tid]
  {
    var t := w.txns[tid];
    hide HandOk;
    hide AllConsistent;
    hide LocksOk;
    assert TxnOk(text, w, tid);
    FirstStatementLocks(t);
    hide Program;
    hide Wrote;
    hide Locking;
    if t.pc > 0 {
      assert w.locks == w.locks[t.id := tid];
    }
  }

  /** One statement changes nothing committed and nothing of another transaction. */
  lemma ExecIsPrivate(w: World, tid: TxnId)
    requires tid in w.txns && w.txns[tid].pc < |Program(w.txns[tid])|
    requires |w.txns[tid].draft.vectors| == |w.txns[tid].draft.slices|
    ensures var v := Run(w, tid);
      && v.db == w.db.(nextRow := v.db.nextRow)
      && (forall id :: SameEntry(w.db, v.db, id))
      && v.txns == w.txns[tid := Wrote(w.db, w.txns[tid])]
  {
    hide Program;
    hide Wrote;
    hide Locking;
  }

  lemma WroteKeepsWrites(db: Db, t: Txn)
    requires t.pc < |Program(t)| && |t.draft.vectors| == |t.draft.slices|
    requires WritesOk(db, t)
    ensures WritesOk(db, Wrote(db, t))
  {
  }

  lemma WroteKeepsNumber(text: Text, db: Db, t: Txn)
    requires t.pc < |Program(t)| && |t.draft.vectors| == |t.draft.slices|
    requires Consistent(text, db, t.id)
    requires t.pc > 0 || t.creates ==> (t.creates <==> t.id !in db.entries)
    requires Ran(t, InsertRow) || Ran(t, ReadMax) ==> t.number == |VersionsOf(db, t.id)| + 1
    ensures var n := Wrote(db, t);
      Ran(n, InsertRow) || Ran(n, ReadMax) ==> n.number == |VersionsOf(db, t.id)| + 1
  {
    MaxOfNumbered(VersionsOf(db, t.id));
  }

  lemma WroteKeepsHand(text: Text, db: Db, t: Txn)
    requires t.pc < |Program(t)| && |t.draft.vectors| == |t.draft.slices|
    requires Consistent(text, db, t.id) && HandOk(text, db, t)
    requires t.pc == 0 ==> (t.creates <==> t.id !in db.entries)
    ensures HandOk(text, db, Wrote(db, t))
  {
    WroteKeepsWrites(db, t);
    WroteKeepsNumber(text, db, t);
    hide Wrote;
    hide WritesOk;
    hide Consistent;
    hide Ran;
  }

  lemma FirstStatementChecks(w: World, tid: TxnId)
    requires tid in w.txns && w.txns[tid].pc < |Program(w.txns[tid])| && !Raises(w, tid)
    ensures w.txns[tid].pc == 0 ==> (w.txns[tid].creates <==> w.txns[tid].id !in w.db.entries)
  {
  }

  lemma ExecKeepsTxn(text: Text, w: World, tid: TxnId)
    requires Inv(text, w) && Enabled(text, w, Exec(tid))
    ensures TxnOk(text, Run(w, tid), tid)
  {
    ExecIsPrivate(w, tid);
    ExecLocks(text, w, tid);
    FirstStatementChecks(w, tid);
    hide HandOk;
    hide Run;
    hide Wrote;
    hide Consistent;
    hide Program;
    assert TxnOk(text, w, tid) && Consistent(text, w.db, w.txns[tid].id);
    WroteKeepsHand(text, w.db, w.txns[tid]);
    HandFrame(text, w.db, Run(w, tid).db, Wrote(w.db, w.txns[tid]));
  }

  lemma ExecKeepsInv(text: Text, w: World, tid: TxnId)
    requires Inv(text, w) && Enabled(text, w, Exec(tid))
    ensures Inv(text, Run(w, tid))
  {
    var v := Run(w, tid);
    ExecIsPrivate(w, tid);
    ExecKeepsTxn(text, w, tid);
    ExecKeepsLocks(text, w, tid);
    hide Run;
    hide Wrote;
    hide AllConsistent;
    hide LocksOk;
    hide Program;
    hide Raises;
    hide SameEntry;
    hide Waits;
    hide TxnOk;
    SameDbStaysConsistent(text, w.db, v.db);
    forall other | other in v.txns
      ensures TxnOk(text, v, other)
    {
      if other != tid {
        ExecSparesOther(text, w, tid, other);
      }
    }
  }

  lemma ExecKeepsLocks(text: Text, w: World, tid: TxnId)
    requires Inv(text, w) && Enabled(text, w, Exec(tid))
    ensures LocksOk(Run(w, tid))
  {
    var v := Run(w, tid);
    ExecIsPrivate(w, tid);
    ExecLocks(text, w, tid);
    hide Run;
    hide Wrote;
    hide AllConsistent;
    hide TxnsOk;
    hide Program;
    hide Raises;
    hide SameEntry;
    hide Waits;
    forall id | id in v.locks
      ensures LockOk(v, id)
    {
      assert id != w.txns[tid].id ==> LockOk(w, id);
    }
  }

  lemma SameDbStaysConsistent(text: Text, a: Db, b: Db)
    requires AllConsistent(text, a) && forall id :: SameEntry(a, b, id)
    ensures AllConsistent(text, b)
  {
    hide Consistent;
    hide SameEntry;
    forall id
      ensures Consistent(text, b, id)
    {
      ConsistentFrame(text, a, b, id);
    }
  }

  lemma ExecSparesOther(text: Text, w: World, tid: TxnId, other: TxnId)
    requires Inv(text, w) && Enabled(text, w, Exec(tid)) && other in w.txns && other != tid
    ensures other in Run(w, tid).txns && TxnOk(text, Run(w, tid), other)
  {
    var v := Run(w, tid);
    var id := w.txns[tid].id;
    ExecIsPrivate(w, tid);
    ExecLocks(text, w, tid);
    assert TxnOk(text, w, tid) && TxnOk(text, w, other);
    assert !Holds(w, other, id) by {
      hide HandOk;
      OthersDoNotHold(w, tid, other);
    }
    hide *;
    if Holds(w, other, w.txns[other].id) {
      LockSurvives(w, v, tid, other, id);
    }
    TxnFrame(text, w, v, other);
  }

  lemma LockSurvives(w: World, v: World, tid: TxnId, other: TxnId, id: EntryId)
    requires v.locks == w.locks[id := tid] && !Holds(w, other, id)
    requires other in w.txns && Holds(w, other, w.txns[other].id)
    ensures Holds(v, other, w.txns[other].id)
  {
  }

  /** A transaction whose statement does not wait shares its entry's lock with nobody. */
  lemma OthersDoNotHold(w: World, tid: TxnId, other: TxnId)
    requires tid in w.txns && w.txns[tid].pc < |Program(w.txns[tid])| && !Waits(w, tid) && other != tid
    requires w.txns[tid].pc > 0 ==> Holds(w, tid, w.txns[tid].id)
    ensures !Holds(w, other, w.txns[tid].id)
  {
    FirstStatementLocks(w.txns[tid]);
  }

  /** At commit time nothing of the old chunks survives. */
  lemma PublishReplacesChunks(text: Text, db: Db, t: Txn)
    requires HandOk(text, db, t) && Consistent(text, db, t.id) && t.pc == |Program(t)|
    ensures ChunksOf(Publish(db, t.id, t.writes), t.id) == t.writes.added
  {
    var rows := ChunksOf(db, t.id);
    if t.creates {
      assert rows == [];
    } else {
      DeletingAllLeavesNone(rows, t.writes.deleted);
    }
    assert Without(rows, t.writes.deleted) == [];
    assert Cascade([], t.draft.entry.now.sensitivity) + t.writes.added == t.writes.added;
  }

  lemma PublishAppends(text: Text, db: Db, t: Txn)
    requires HandOk(text, db, t) && Consistent(text, db, t.id) && t.pc == |Program(t)|
    ensures var after := Publish(db, t.id, t.writes);
      && VersionsOf(after, t.id) == VersionsOf(db, t.id) + [Version(|VersionsOf(db, t.id)| + 1, t.draft.entry.now)]
      && t.id in after.entries && after.entries[t.id] == t.draft.entry
      && after.audit == db.audit + [AuditRow(t.id, t.creates, |t.draft.slices|)]
  {
    hide Consistent;
    hide Without;
    hide Cascade;
  }

  lemma PublishKeepsConsistent(text: Text, db: Db, t: Txn)
    requires HandOk(text, db, t) && Consistent(text, db, t.id) && t.pc == |Program(t)|
    ensures Consistent(text, Publish(db, t.id, t.writes), t.id)
  {
    PublishReplacesChunks(text, db, t);
    PublishAppends(text, db, t);
    hide Publish;
  }

  lemma PublishIsLocal(db: Db, id: EntryId, writes: Writes, other: EntryId)
    requires other != id
    ensures SameEntry(db, Publish(db, id, writes), other)
  {
    hide Without;
    hide Cascade;
  }

  /** What committing does to the entry: one more version, the draft as current state, all chunks new. */
  lemma CommitAppends(text: Text, w: World, tid: TxnId)
    requires Inv(text, w) && Enabled(text, w, Commit(tid))
    ensures var t := w.txns[tid];
      var after := Apply(text, w, Commit(tid)).db;
      && VersionsOf(after, t.id) == VersionsOf(w.db, t.id) + [Version(|VersionsOf(w.db, t.id)| + 1, t.draft.entry.now)]
      && t.id in after.entries && after.entries[t.id] == t.draft.entry
      && ChunksOf(after, t.id) == t.writes.added
      && after.audit == w.db.audit + [AuditRow(t.id, t.creates, |t.draft.slices|)]
      && Consistent(text, after, t.id)
  {
    var t := w.txns[tid];
    hide HandOk;
    hide Consistent;
    hide Publish;
    hide Program;
    assert TxnOk(text, w, tid) && Consistent(text, w.db, t.id);
    PublishReplacesChunks(text, w.db, t);
    PublishAppends(text, w.db, t);
    PublishKeepsConsistent(text, w.db, t);
  }

  /** Committing or aborting touches no other entry and no other transaction. */
  lemma EndIsPrivate(text: Text, w: World, step: Step)
    requires Enabled(text, w, step) && (step.Commit? || step.Abort?)
    ensures var v := Apply(text, w, step);
      && v.txns == w.txns - {step.tid}
      && (forall id :: id in v.locks <==> id in w.locks && w.locks[id] != step.tid)
      && (forall id :: id in v.locks ==> v.locks[id] == w.locks[id])
      && (step.Abort? ==> v.db == w.db)
      && forall id :: id != w.txns[step.tid].id ==> SameEntry(w.db, v.db, id)
  {
    var t := w.txns[step.tid];
    hide Program;
    hide SameEntry;
    forall id | id != t.id
      ensures SameEntry(w.db, Apply(text, w, step).db, id)
    {
      PublishIsLocal(w.db, t.id, t.writes, id);
      SameAsItself(w.db, id);
    }
    hide Publish;
  }

  lemma SameAsItself(db: Db, id: EntryId)
    ensures SameEntry(db, db, id)
  {
  }

  lemma EndKeepsConsistent(text: Text, w: World, step: Step)
    requires Inv(text, w) && Enabled(text, w, step) && (step.Commit? || step.Abort?)
    ensures AllConsistent(text, Apply(text, w, step).db)
  {
    EndIsPrivate(text, w, step);
    if step.Commit? {
      CommitAppends(text, w, step.tid);
    }
    hide Apply;
    hide Enabled;
    hide TxnsOk;
    hide LocksOk;
    hide SameEntry;
    hide Consistent;
    var id := w.txns[step.tid].id;
    SameAsItself(w.db, id);
    forall other
      ensures Consistent(text, Apply(text, w, step).db, other)
    {
      if !(step.Commit? && other == id) {
        ConsistentFrame(text, w.db, Apply(text, w, step).db, other);
      }
    }
  }

  lemma EndSparesOther(text: Text, w: World, step: Step, other: TxnId)
    requires Inv(text, w) && Enabled(text, w, step) && (step.Commit? || step.Abort?)
    requires other in w.txns && other != step.tid
    ensures other in Apply(text, w, step).txns && TxnOk(text, Apply(text, w, step), other)
  {
    var v := Apply(text, w, step);
    EndIsPrivate(text, w, step);
    ProgramIsNotEmpty(w.txns[step.tid]);
    assert TxnOk(text, w, step.tid) && TxnOk(text, w, other);
    hide Apply;
    hide AllConsistent;
    hide SameEntry;
    hide HandOk;
    hide Program;
    if step.Commit? && w.txns[other].id == w.txns[step.tid].id {
      FreshHand(text, w.db, v.db, w.txns[other]);
    } else {
      SameAsItself(w.db, w.txns[other].id);
      TxnFrame(text, w, v, other);
    }
  }

  lemma EndKeepsLocks(text: Text, w: World, step: Step)
    requires Inv(text, w) && Enabled(text, w, step) && (step.Commit? || step.Abort?)
    ensures LocksOk(Apply(text, w, step))
  {
    var v := Apply(text, w, step);
    EndIsPrivate(text, w, step);
    hide Apply;
    hide AllConsistent;
    hide SameEntry;
    hide TxnsOk;
    hide Enabled;
    forall id | id in v.locks
      ensures LockOk(v, id)
    {
      assert LockOk(w, id);
    }
  }

  lemma EndKeepsInv(text: Text, w: World, step: Step)
    requires Inv(text, w) && Enabled(text, w, step) && (step.Commit? || step.Abort?)
    ensures Inv(text, Apply(text, w, step))
  {
    var v := Apply(text, w, step);
    EndIsPrivate(text, w, step);
    EndKeepsConsistent(text, w, step);
    EndKeepsLocks(text, w, step);
    hide Apply;
    hide AllConsistent;
    hide LocksOk;
    hide SameEntry;
    hide TxnOk;
    forall other | other in v.txns
      ensures TxnOk(text, v, other)
    {
      EndSparesOther(text, w, step, other);
    }
  }

  lemma ProgramIsNotEmpty(t: Txn)
    ensures |Program(t)| > 0
  {
  }

  /** A transaction that has not locked its row yet has nothing in hand that a commit could spoil. */
  lemma FreshHand(text: Text, a: Db, b: Db, t: Txn)
    requires HandOk(text, a, t) && t.pc == 0
    ensures HandOk(text, b, t)
  {
  }

  lemma StepKeepsInv(text: Text, w: World, step: Step)
    requires Inv(text, w) && Enabled(text, w, step)
    ensures Inv(text, Apply(text, w, step))
  {
    match step
    case Begin(tid, id, creates, draft) =>
      var v := Apply(text, w, step);
      forall other | other in v.txns
        ensures TxnOk(text, v, other)
      {
        if other != tid {
          assert TxnOk(text, w, other);
        }
      }
      forall other | other in v.locks
        ensures LockOk(v, other)
      {
        assert LockOk(w, other);
      }
    case Exec(tid) => ExecKeepsInv(text, w, tid);
    case _ => EndKeepsInv(text, w, step);
  }

  lemma {:induction false} RunKeepsInv(text: Text, w: World, steps: seq<Step>)
    requires Inv(text, w) && ValidRun(text, w, steps)
    ensures Inv(text, Exe(text, w, steps))
    decreases |steps|
  {
    if steps != [] {
      StepKeepsInv(text, w, steps[0]);
      RunKeepsInv(text, Apply(text, w, steps[0]), steps[1..]);
    }
  }

  /** Safety of the whole history, from the empty database, however transactions interleave and abort. */
  lemma EveryCommittedStateIsConsistent(text: Text, steps: seq<Step>, id: EntryId)
    requires ValidRun(text, EMPTY_WORLD, steps)
    ensures Consistent(text, Exe(text, EMPTY_WORLD, steps).db, id)
  {
    RunKeepsInv(text, EMPTY_WORLD, steps);
  }

  // ----- What the row lock buys -----

  /** After its first statement a transaction neither waits nor hits a unique violation: it can always commit. */
  lemma HolderNeverBlocks(text: Text, w: World, tid: TxnId)
    requires Inv(text, w) && tid in w.txns && 0 < w.txns[tid].pc < |Program(w.txns[tid])|
    ensures Enabled(text, w, Exec(tid))
  {
    var t := w.txns[tid];
    assert TxnOk(text, w, tid) && Consistent(text, w.db, t.id);
    FirstStatementLocks(t);
    if Program(t)[t.pc] == InsertVersion {
      assert t.number == |VersionsOf(w.db, t.id)| + 1;
    }
  }

  lemma FinalCommit(text: Text, w: World, tid: TxnId)
    requires Inv(text, w) && Enabled(text, w, Commit(tid))
    ensures ValidRun(text, w, [Commit(tid)])
    ensures var v := Exe(text, w, [Commit(tid)]);
      tid !in v.txns && |VersionsOf(v.db, w.txns[tid].id)| == |VersionsOf(w.db, w.txns[tid].id)| + 1
  {
    CommitAppends(text, w, tid);
    EndIsPrivate(text, w, Commit(tid));
    hide Enabled;
    hide Apply;
    hide Inv;
    hide Consistent;
    assert [Commit(tid)][1..] == [];
  }

  lemma HolderCanFinish(text: Text, w: World, tid: TxnId) returns (steps: seq<Step>)
    requires Inv(text, w) && tid in w.txns && 0 < w.txns[tid].pc
    ensures ValidRun(text, w, steps) && tid !in Exe(text, w, steps).txns
    ensures |VersionsOf(Exe(text, w, steps).db, w.txns[tid].id)| == |VersionsOf(w.db, w.txns[tid].id)| + 1
    decreases |Program(w.txns[tid])| - w.txns[tid].pc
  {
    assert TxnOk(text, w, tid);
    hide Inv;
    if w.txns[tid].pc == |Program(w.txns[tid])| {
      FinalCommit(text, w, tid);
      steps := [Commit(tid)];
    } else {
      HolderNeverBlocks(text, w, tid);
      ExecIsPrivate(w, tid);
      ExecKeepsInv(text, w, tid);
      hide Wrote;
      hide HandOk;
      var rest := HolderCanFinish(text, Run(w, tid), tid);
      steps := [Exec(tid)] + rest;
      assert steps[1..] == rest;
    }
  }

  // ----- Nothing is lost -----

  function AsNat(b: bool): nat {
    if b then 1 else 0
  }

  ghost predicate CommitsTo(w: World, step: Step, id: EntryId) {
    step.Commit? && step.tid in w.txns && w.txns[step.tid].id == id
  }

  ghost function CommitCount(text: Text, w: World, steps: seq<Step>, id: EntryId): nat
    requires ValidRun(text, w, steps)
    decreases |steps|
  {
    if steps == [] then 0
    else AsNat(CommitsTo(w, steps[0], id)) + CommitCount(text, Apply(text, w, steps[0]), steps[1..], id)
  }

  function AuditCount(audit: seq<AuditRow>, id: EntryId): nat {
    if audit == [] then 0 else AsNat(audit[|audit| - 1].entry == id) + AuditCount(audit[..|audit| - 1], id)
  }

  /** Committed history of `id` grows by exactly one version and one audit row when the step commits to it. */
  ghost predicate Grows(w: World, v: World, step: Step, id: EntryId) {
    && VersionsOf(w.db, id) <= VersionsOf(v.db, id)
    && |VersionsOf(v.db, id)| == |VersionsOf(w.db, id)| + AsNat(CommitsTo(w, step, id))
    && AuditCount(v.db.audit, id) == AuditCount(w.db.audit, id) + AsNat(CommitsTo(w, step, id))
    && (!CommitsTo(w, step, id) ==> SameEntry(w.db, v.db, id))
  }

  lemma CommitGrows(text: Text, w: World, tid: TxnId, id: EntryId)
    requires Inv(text, w) && Enabled(text, w, Commit(tid))
    ensures Grows(w, Apply(text, w, Commit(tid)), Commit(tid), id)
  {
    hide Apply;
    hide Inv;
    hide Enabled;
    hide Consistent;
    hide SameEntry;
    EnabledCommit(text, w, tid);
    EndIsPrivate(text, w, Commit(tid));
    CommitAppends(text, w, tid);
    var audit := Apply(text, w, Commit(tid)).db.audit;
    assert audit[..|audit| - 1] == w.db.audit;
    if id != w.txns[tid].id {
      SameVersions(w.db, Apply(text, w, Commit(tid)).db, id);
    }
  }

  lemma SameVersions(a: Db, b: Db, id: EntryId)
    requires SameEntry(a, b, id)
    ensures VersionsOf(a, id) == VersionsOf(b, id)
  {
  }

  lemma StepGrows(text: Text, w: World, step: Step, id: EntryId)
    requires Inv(text, w) && Enabled(text, w, step)
    ensures Grows(w, Apply(text, w, step), step, id)
  {
    SameAsItself(w.db, id);
    match step
    case Begin(_, _, _, _) =>
    case Exec(tid) =>
      ExecIsPrivate(w, tid);
      hide Run;
    case Abort(_) =>
    case Commit(tid) => CommitGrows(text, w, tid, id);
  }

  /**
   * No update is lost and history is never rewritten: old versions stay in place, every commit adds
   * one version and one audit row, and nothing else adds any.
   */
  lemma {:induction false} HistoryGrowsByCommits(text: Text, w: World, steps: seq<Step>, id: EntryId)
    requires Inv(text, w) && ValidRun(text, w, steps)
    ensures var v := Exe(text, w, steps);
      && VersionsOf(w.db, id) <= VersionsOf(v.db, id)
      && |VersionsOf(v.db, id)| == |VersionsOf(w.db, id)| + CommitCount(text, w, steps, id)
      && AuditCount(v.db.audit, id) == AuditCount(w.db.audit, id) + CommitCount(text, w, steps, id)
    decreases |steps|
  {
    if steps != [] {
      StepKeepsInv(text, w, steps[0]);
      StepGrows(text, w, steps[0], id);
      HistoryGrowsByCommits(text, Apply(text, w, steps[0]), steps[1..], id);
    }
  }

  // ----- createEntry and updateEntry among other clients -----

  ghost function OwnCommits(steps: seq<Step>, tid: TxnId): nat {
    if steps == [] then 0 else AsNat(steps[0] == Commit(tid)) + OwnCommits(steps[1..], tid)
  }

  /** A run leads from one world to the other in which transaction `tid` commits `commits` times. */
  ghost predicate Reaches(text: Text, from: World, to: World, tid: TxnId, commits: nat) {
    exists steps: seq<Step> ::
      ValidRun(text, from, steps) && Exe(text, from, steps) == to && OwnCommits(steps, tid) == commits
  }

  lemma {:induction false} RunsCompose(text: Text, w: World, first: seq<Step>, second: seq<Step>, tid: TxnId)
    requires ValidRun(text, w, first) && ValidRun(text, Exe(text, w, first), second)
    ensures ValidRun(text, w, first + second)
    ensures Exe(text, w, first + second) == Exe(text, Exe(text, w, first), second)
    ensures OwnCommits(first + second, tid) == OwnCommits(first, tid) + OwnCommits(second, tid)
    decreases |first|
  {
    if first == [] {
      assert first + second == second;
    } else {
      assert (first + second)[0] == first[0] && (first + second)[1..] == first[1..] + second;
      RunsCompose(text, Apply(text, w, first[0]), first[1..], second, tid);
    }
  }

  lemma ReachesTrans(text: Text, a: World, b: World, c: World, tid: TxnId, m: nat, n: nat)
    requires Reaches(text, a, b, tid, m) && Reaches(text, b, c, tid, n)
    ensures Reaches(text, a, c, tid, m + n)
  {
    hide ValidRun;
    hide Exe;
    hide OwnCommits;
    var first: seq<Step> :| ValidRun(text, a, first) && Exe(text, a, first) == b && OwnCommits(first, tid) == m;
    var second: seq<Step> :| ValidRun(text, b, second) && Exe(text, b, second) == c && OwnCommits(second, tid) == n;
    RunsCompose(text, a, first, second, tid);
  }

  lemma ReachesSelf(text: Text, w: World, tid: TxnId)
    ensures Reaches(text, w, w, tid, 0)
  {
    assert ValidRun(text, w, []) && Exe(text, w, []) == w && OwnCommits([], tid) == 0;
  }

  lemma ReachesStep(text: Text, w: World, step: Step, tid: TxnId)
    requires Enabled(text, w, step)
    ensures Reaches(text, w, Apply(text, w, step), tid, AsNat(step == Commit(tid)))
  {
    hide Enabled;
    hide Apply;
    var steps := [step];
    assert steps[1..] == [];
    assert ValidRun(text, Apply(text, w, step), []) && Exe(text, Apply(text, w, step), []) == Apply(text, w, step);
    assert OwnCommits([], tid) == 0;
    assert ValidRun(text, w, steps) && Exe(text, w, steps) == Apply(text, w, step);
    assert OwnCommits(steps, tid) == AsNat(step == Commit(tid));
  }

  lemma ReachesGrows(text: Text, from: World, to: World, tid: TxnId, id: EntryId)
    requires Inv(text, from) && Reaches(text, from, to, tid, 0)
    ensures VersionsOf(from.db, id) <= VersionsOf(to.db, id)
  {
    var steps: seq<Step> :| ValidRun(text, from, steps) && Exe(text, from, steps) == to && OwnCommits(steps, tid) == 0;
    HistoryGrowsByCommits(text, from, steps, id);
  }

  lemma ReachesOn(text: Text, start: World, w: World, step: Step, tid: TxnId)
    requires Reaches(text, start, w, tid, 0) && Enabled(text, w, step)
    ensures Reaches(text, start, Apply(text, w, step), tid, AsNat(step == Commit(tid)))
  {
    ReachesStep(text, w, step, tid);
    hide Enabled;
    hide Apply;
    hide Reaches;
    ReachesTrans(text, start, w, Apply(text, w, step), tid, 0, AsNat(step == Commit(tid)));
  }

  predicate Sends(t: Txn, s: Statement) {
    t.pc < |Program(t)| && Program(t)[t.pc] == s
  }

  /** The same transaction with its whole program behind it. */
  predicate Completes(t: Txn, next: Txn) {
    && next.id == t.id && next.creates == t.creates && next.draft == t.draft
    && next.pc == (if t.creates then |CREATE| else |UPDATE|)
  }

  lemma UpdateSends(t: Txn)
    requires !t.creates && t.pc < 7
    ensures Sends(t, UPDATE[t.pc])
  {
  }

  lemma CreateSends(t: Txn)
    requires t.creates && t.pc < 4
    ensures Sends(t, CREATE[t.pc])
  {
  }

  predicate Follows(t: Txn, next: Txn) {
    next.id == t.id && next.creates == t.creates && next.draft == t.draft && next.pc == t.pc + 1
  }

  lemma SlicesMatch(text: Text, w: World, tid: TxnId)
    requires Inv(text, w) && tid in w.txns
    ensures |w.txns[tid].draft.vectors| == |w.txns[tid].draft.slices|
  {
    assert TxnOk(text, w, tid);
  }

  /** Everything the caller of a transaction may rely on when its commit returns. */
  lemma CommitSummary(text: Text, start: World, w: World, tid: TxnId)
    requires Inv(text, start) && Inv(text, w) && Reaches(text, start, w, tid, 0) && Enabled(text, w, Commit(tid))
    ensures Reaches(text, start, Apply(text, w, Commit(tid)), tid, 1)
    ensures var t := w.txns[tid];
      var after := Apply(text, w, Commit(tid)).db;
      && t.number == |VersionsOf(after, t.id)|
      && |t.draft.slices| == |ChunksOf(after, t.id)|
      && VersionsOf(start.db, t.id) < VersionsOf(after, t.id)
      && t.id in after.entries && after.entries[t.id] == t.draft.entry
      && VersionsOf(after, t.id) == VersionsOf(w.db, t.id) + [Version(t.number, t.draft.entry.now)]
      && after.audit == w.db.audit + [AuditRow(t.id, t.creates, |t.draft.slices|)]
  {
    ReachesGrows(text, start, w, tid, w.txns[tid].id);
    ReachesOn(text, start, w, Commit(tid), tid);
    CommitAppends(text, w, tid);
    CommittedChunkCount(text, w, tid);
    hide Reaches;
    hide Inv;
    hide Program;
    hide Consistent;
    hide Apply;
    hide VersionsOf;
    hide ChunksOf;
  }

  lemma EnabledCommit(text: Text, w: World, tid: TxnId)
    requires Enabled(text, w, Commit(tid))
    ensures tid in w.txns
  {
  }

  lemma CommittedChunkCount(text: Text, w: World, tid: TxnId)
    requires Inv(text, w) && Enabled(text, w, Commit(tid))
    ensures |w.txns[tid].draft.slices| == |ChunksOf(Apply(text, w, Commit(tid)).db, w.txns[tid].id)|
    ensures w.txns[tid].number == |VersionsOf(w.db, w.txns[tid].id)| + 1
  {
    CommitAppends(text, w, tid);
    assert TxnOk(text, w, tid);
  }

  datatype Result = Stored(id: EntryId, number: nat, chunkCount: nat) | Failed(failure: Failure)

  class EntryStore {
    var db: Db
    var txns: map<TxnId, Txn>
    var locks: map<EntryId, TxnId>

    constructor ()
      ensures Now() == EMPTY_WORLD
    {
      db, txns, locks := EMPTY_WORLD.db, map[], map[];
    }

    function Now(): World
      reads this
    {
      World(db, txns, locks)
    }

    /** What other connections do between two statements of transaction `tid`: any valid steps of theirs. */
    method OtherTransactions(text: Text, tid: TxnId)
      requires Inv(text, Now())
      modifies this
      ensures Inv(text, Now())
      ensures Reaches(text, old(Now()), Now(), tid, 0)
      ensures tid in old(txns) ==> tid in txns && txns[tid] == old(txns)[tid]
      ensures tid !in old(txns) ==> tid !in txns
    {
      ReachesSelf(text, Now(), tid);
    }

    method RollBack(text: Text, tid: TxnId, ghost start: World)
      requires Inv(text, Now()) && tid in txns && Reaches(text, start, Now(), tid, 0)
      modifies this
      ensures Inv(text, Now()) && Reaches(text, start, Now(), tid, 0)
      ensures tid !in txns && db == old(db)
    {
      StepKeepsInv(text, Now(), Abort(tid));
      ReachesOn(text, start, Now(), Abort(tid), tid);
      hide Inv;
      hide Reaches;
      txns, locks := txns - {tid}, map id | id in locks && locks[id] != tid :: locks[id];
    }

    method Execute(text: Text, tid: TxnId, ghost start: World)
      requires Inv(text, Now()) && Enabled(text, Now(), Exec(tid)) && Reaches(text, start, Now(), tid, 0)
      modifies this
      ensures Inv(text, Now()) && Reaches(text, start, Now(), tid, 0)
      ensures tid in txns && Follows(old(txns)[tid], txns[tid])
    {
      StepKeepsInv(text, Now(), Exec(tid));
      ReachesOn(text, start, Now(), Exec(tid), tid);
      hide Inv;
      hide Reaches;
      var w := Run(Now(), tid);
      ExecIsPrivate(Now(), tid);
      hide Wrote;
      db, txns, locks := w.db, w.txns, w.locks;
    }

    /** Sends one statement; an error rolls the transaction back. `fault` is any other database error. */
    method Perform(text: Text, tid: TxnId, s: Statement, fault: bool, ghost start: World) returns (error: Option<Failure>)
      requires Inv(text, Now()) && tid in txns && Reaches(text, start, Now(), tid, 0)
      requires Sends(txns[tid], s)
      modifies this
      ensures Inv(text, Now()) && Reaches(text, start, Now(), tid, 0)
      ensures error.None? ==> tid in txns && Follows(old(txns)[tid], txns[tid])
      ensures error.Some? ==> tid !in txns
      ensures error.Some? ==> error.value == Rejected || error.value == NotFound
      ensures error == Some(NotFound) ==> s == LockRow && old(txns)[tid].id !in db.entries
    {
      hide Inv;
      hide Reaches;
      hide Program;
      ghost var sent := Now();
      OtherTransactions(text, tid);
      ReachesTrans(text, start, sent, Now(), tid, 0, 0);
      SlicesMatch(text, Now(), tid);
      if fault || Waits(Now(), tid) || Raises(Now(), tid) {
        error := Some(if s == LockRow && txns[tid].id !in db.entries then NotFound else Rejected);
        hide Waits;
        hide Raises;
        RollBack(text, tid, start);
      } else {
        error := None;
        assert Enabled(text, Now(), Exec(tid));
        hide Enabled;
        hide Waits;
        hide Raises;
        Execute(text, tid, start);
      }
    }

    method Start(text: Text, tid: TxnId, id: EntryId, creates: bool, draft: Draft)
      requires Inv(text, Now()) && tid !in txns && DraftOk(text, draft)
      modifies this
      ensures Inv(text, Now())
      ensures Reaches(text, old(Now()), Now(), tid, 0)
      ensures tid in txns && txns[tid] == Txn(id, creates, draft, 0, 0, NO_WRITES)
    {
      StepKeepsInv(text, Now(), Begin(tid, id, creates, draft));
      ReachesStep(text, Now(), Begin(tid, id, creates, draft), tid);
      hide Inv;
      hide Reaches;
      txns := txns[tid := Txn(id, creates, draft, 0, 0, NO_WRITES)];
    }

    method Finish(text: Text, tid: TxnId, ghost start: World) returns (r: Result)
      requires Inv(text, start) && Inv(text, Now()) && Reaches(text, start, Now(), tid, 0)
      requires Enabled(text, Now(), Commit(tid))
      modifies this
      ensures Inv(text, Now())
      ensures Reaches(text, start, Now(), tid, 1)
      ensures var t := old(txns)[tid];
        && r == Stored(t.id, |VersionsOf(db, t.id)|, |t.draft.slices|)
        && r.chunkCount == |ChunksOf(db, t.id)|
        && VersionsOf(start.db, t.id) < VersionsOf(db, t.id)
        && t.id in db.entries && db.entries[t.id] == t.draft.entry
        && VersionsOf(db, t.id) == VersionsOf(old(db), t.id) + [Version(r.number, t.draft.entry.now)]
        && db.audit == old(db).audit + [AuditRow(t.id, t.creates, |t.draft.slices|)]
    {
      hide Inv;
      hide Reaches;
      hide Enabled;
      hide Apply;
      hide VersionsOf;
      hide ChunksOf;
      ghost var before := Now();
      assert tid in txns by {
        EnabledCommit(text, before, tid);
      }
      var t := txns[tid];
      r := Stored(t.id, t.number, |t.draft.slices|);
      CommitSummary(text, start, before, tid);
      Publishes(text, tid);
    }

    method Publishes(text: Text, tid: TxnId)
      requires Inv(text, Now()) && Enabled(text, Now(), Commit(tid))
      modifies this
      ensures Inv(text, Now())
      ensures Now() == Apply(text, old(Now()), Commit(tid))
    {
      StepKeepsInv(text, Now(), Commit(tid));
      hide Inv;
      hide Publish;
      db := Publish(db, txns[tid].id, txns[tid].writes);
      txns, locks := txns - {tid}, map id | id in locks && locks[id] != tid :: locks[id];
    }

    /** The statements of updateEntry in their order; other clients run before each. */
    method UpdateStatements(text: Text, tid: TxnId, faults: Statement -> bool, ghost start: World)
      returns (error: Option<Failure>)
      requires Inv(text, Now()) && tid in txns && Reaches(text, start, Now(), tid, 0)
      requires txns[tid].pc == 0 && !txns[tid].creates
      modifies this
      ensures Inv(text, Now()) && Reaches(text, start, Now(), tid, 0)
      ensures error.None? ==> tid in txns && Completes(old(txns)[tid], txns[tid])
      ensures error == Some(NotFound) ==> old(txns)[tid].id !in db.entries
    {
      hide Inv;
      hide Reaches;
      hide Sends;
      hide Program;
      UpdateSends(txns[tid]);
      error := Perform(text, tid, LockRow, faults(LockRow), start);
      if error.Some? {
        return;
      }
      UpdateSends(txns[tid]);
      error := Perform(text, tid, ReadMax, faults(ReadMax), start);
      if error.Some? {
        return;
      }
      UpdateSends(txns[tid]);
      error := Perform(text, tid, InsertVersion, faults(InsertVersion), start);
      if error.Some? {
        return;
      }
      UpdateSends(txns[tid]);
      error := Perform(text, tid, DeleteChunks, faults(DeleteChunks), start);
      if error.Some? {
        return;
      }
      UpdateSends(txns[tid]);
      error := Perform(text, tid, UpdateRow, faults(UpdateRow), start);
      if error.Some? {
        return;
      }
      UpdateSends(txns[tid]);
      error := Perform(text, tid, InsertChunks, faults(InsertChunks), start);
      if error.Some? {
        return;
      }
      UpdateSends(txns[tid]);
      error := Perform(text, tid, WriteAudit, faults(WriteAudit), start);
    }

    method CreateStatements(text: Text, tid: TxnId, faults: Statement -> bool, ghost start: World)
      returns (error: Option<Failure>)
      requires Inv(text, Now()) && tid in txns && Reaches(text, start, Now(), tid, 0)
      requires txns[tid].pc == 0 && txns[tid].creates
      modifies this
      ensures Inv(text, Now()) && Reaches(text, start, Now(), tid, 0)
      ensures error.None? ==> tid in txns && Completes(old(txns)[tid], txns[tid])
      ensures error.Some? ==> error.value != NotFound
    {
      hide Inv;
      hide Reaches;
      hide Sends;
      hide Program;
      CreateSends(txns[tid]);
      error := Perform(text, tid, InsertRow, faults(InsertRow), start);
      if error.Some? {
        return;
      }
      CreateSends(txns[tid]);
      error := Perform(text, tid, InsertVersion, faults(InsertVersion), start);
      if error.Some? {
        return;
      }
      CreateSends(txns[tid]);
      error := Perform(text, tid, InsertChunks, faults(InsertChunks), start);
      if error.Some? {
        return;
      }
      CreateSends(txns[tid]);
      error := Perform(text, tid, WriteAudit, faults(WriteAudit), start);
    }

    /**
     * Other clients run before every statement and `faults` may fail any of them. A stored result means
     * this call committed exactly once and nobody has overwritten it yet; a failure means it committed
     * nothing, and one found before the transaction opens leaves the database alone.
     */
    method UpdateEntry(text: Text, tid: TxnId, id: EntryId, input: Entry, embedded: Embedded, faults: Statement -> bool)
      returns (r: Result)
      requires Inv(text, Now()) && tid !in txns
      modifies this
      ensures Inv(text, Now())
      ensures r.Stored? ==> Reaches(text, old(Now()), Now(), tid, 1)
      ensures r.Stored? ==>
        && Derive(text, input, embedded).Derived?
        && r == Stored(id, |VersionsOf(db, id)|, |ChunksOf(db, id)|)
        && id in db.entries && db.entries[id] == Derive(text, input, embedded).draft.entry
        && VersionsOf(old(db), id) < VersionsOf(db, id)
      ensures r.Failed? ==> Reaches(text, old(Now()), Now(), tid, 0)
      ensures r == Failed(NotFound) ==> id !in db.entries
      ensures Derive(text, input, embedded).Refused? ==>
        r == Failed(Derive(text, input, embedded).failure) && Now() == old(Now())
    {
      ghost var start := Now();
      ReachesSelf(text, start, tid);
      hide Reaches;
      hide Inv;
      hide Consistent;
      var derived := Derive(text, input, embedded);
      if derived.Refused? {
        return Failed(derived.failure);
      }
      hide Derive;
      Start(text, tid, id, false, derived.draft);
      var error := UpdateStatements(text, tid, faults, start);
      if error.Some? {
        return Failed(error.value);
      }
      r := Finish(text, tid, start);
    }

    /** The id is the caller's or a fresh one; a new entry starts at version 1. */
    method CreateEntry(text: Text, tid: TxnId, id: EntryId, input: Entry, embedded: Embedded, faults: Statement -> bool)
      returns (r: Result)
      requires Inv(text, Now()) && tid !in txns
      modifies this
      ensures Inv(text, Now())
      ensures r.Stored? ==> Reaches(text, old(Now()), Now(), tid, 1)
      ensures r.Stored? ==>
        && Derive(text, input, embedded).Derived?
        && r == Stored(id, 1, |ChunksOf(db, id)|)
        && VersionsOf(old(db), id) == []
        && id in db.entries && db.entries[id] == Derive(text, input, embedded).draft.entry
        && VersionsOf(db, id) == [Version(1, db.entries[id].now)]
      ensures r.Failed? ==> Reaches(text, old(Now()), Now(), tid, 0) && r.failure != NotFound
      ensures Derive(text, input, embedded).Refused? ==>
        r == Failed(Derive(text, input, embedded).failure) && Now() == old(Now())
    {
      ghost var start := Now();
      ReachesSelf(text, start, tid);
      hide Reaches;
      hide Inv;
      hide Consistent;
      var derived := Derive(text, input, embedded);
      if derived.Refused? {
        return Failed(derived.failure);
      }
      hide Derive;
      Start(text, tid, id, true, derived.draft);
      var error := CreateStatements(text, tid, faults, start);
      if error.Some? {
        return Failed(error.value);
      }
      CreatedIsNew(text, Now(), tid);
      ReachesGrows(text, start, Now(), tid, id);
      r := Finish(text, tid, start);
    }
  }

  lemma CreatedIsNew(text: Text, w: World, tid: TxnId)
    requires Inv(text, w) && tid in w.txns && w.txns[tid].creates && w.txns[tid].pc > 0
    ensures VersionsOf(w.db, w.txns[tid].id) == []
  {
    assert TxnOk(text, w, tid) && Consistent(text, w.db, w.txns[tid].id);
  }
}
