/**
 The apply engine as a step system (`process_table`, `apply_file`, `check_position_cur` and
 `_commit_status` of scripts/glue_cdc_composite.py).

 Any number of runs of the job work on one table at the same time.  The shared state is the
 database (the target table, the table's `cdc_status` row, the per-file ledger) and the folder of
 change files.  A step of a run starts a transaction on a snapshot and checks the position fence
 in it, commits, aborts, loses the commit's acknowledgement, or crashes; a transaction whose
 client is gone may still commit later.  A commit succeeds only when the `cdc_status` row is the
 version the transaction read.
 */
module ApplyProtocol {
  import opened Util
  import opened ChangeRows
  import opened NetOps

  type Name = string

  datatype File = File(name: Name, rows: seq<Row>)

  /** The checkpoint: `(in_progress_file, last_offset, last_done_file)`. */
  datatype Pos = Pos(inProgress: Option<Name>, offset: nat, lastDone: Option<Name>)

  datatype LedgerRow = LedgerRow(committed: bool, done: bool)

  /** `version` is the row version of the table's `cdc_status` row; `inserts` and `deletes` are its
      drift counters. */
  datatype Db = Db(target: Table, pos: Pos, blocked: bool, version: nat,
                   ledger: map<Name, LedgerRow>, inserts: nat, deletes: nat)

  datatype Work = ChunkWork(file: File, upto: nat) | DoneWork(file: File) | IdleWork

  datatype Txn = Txn(snap: Db, goal: Pos, work: Work)

  datatype Phase = Closed | Open(offset: nat) | Counting

  /** One run's view: its checkpoint (`pos_box`), the listed files not yet done, and where it is
      in the first of them. */
  datatype Run =
    | Down
    | Reading(pos: Pos)
    | Working(pos: Pos, pending: seq<File>, phase: Phase, txn: Option<Txn>)

  /** One committed move of the checkpoint. */
  datatype Move = Move(before: Pos, after: Pos)

  /** `listed` is how far into the folder any run has ever listed.  `memory` holds, for a run, the
      file whose counts its process still remembers (`_last_file_io`): the last file with rows it
      opened and has not counted.  It outlives an error that ends the cycle.  `log` and `counted`
      are the history: the committed moves, and the files whose counts were added to the drift
      counters, as often as they were. */
  datatype State = State(ctx: Context, baseline: Table, folder: seq<File>, listed: nat,
                         db: Db, runs: seq<Run>, memory: map<nat, File>, orphans: seq<Txn>,
                         log: seq<Move>, counted: seq<File>)

  // ----- files -----------------------------------------------------------------------------

  function RawOps(ctx: Context, f: File): seq<NetOp> {
    if Keyed(ctx, f.rows) then RowOps(ctx, f.rows) else []
  }

  function Ops(ctx: Context, f: File): seq<NetOp> { CollapseOps(RawOps(ctx, f)) }

  /** A file the collapse does not refuse. */
  predicate Readable(ctx: Context, f: File) { Collapsible(ctx, f.rows) }

  predicate Sorted(folder: seq<File>) {
    forall i, j :: 0 <= i < j < |folder| ==> Before(folder[i].name, folder[j].name)
  }

  predicate UpTo(name: Name, mark: Name) { name == mark || Before(name, mark) }

  /** How many files are at or under the high-water mark. */
  function DoneCount(folder: seq<File>, lastDone: Option<Name>): (n: nat)
    ensures n <= |folder|
  {
    if lastDone == None || folder == [] then 0
    else DoneCount(folder[..|folder| - 1], lastDone)
         + if UpTo(folder[|folder| - 1].name, lastDone.value) then 1 else 0
  }

  lemma {:induction false} DoneCountAt(folder: seq<File>, i: nat)
    requires Sorted(folder) && i < |folder|
    ensures DoneCount(folder, Some(folder[i].name)) == i + 1
  {
    var last := |folder| - 1;
    var front := folder[..last];
    if i < last {
      DoneCountAt(front, i);
      BeforeIsTotal(folder[i].name, folder[last].name);
    } else {
      AllBelow(front, folder[last].name);
    }
  }

  lemma {:induction false} AllBelow(folder: seq<File>, mark: Name)
    requires forall i :: 0 <= i < |folder| ==> Before(folder[i].name, mark)
    ensures DoneCount(folder, Some(mark)) == |folder|
  {
    if folder != [] {
      AllBelow(folder[..|folder| - 1], mark);
    }
  }

  /** The pending files: those listed and strictly after the high-water mark. */
  function Pending(files: seq<File>, lastDone: Option<Name>): seq<File> {
    if files == [] then []
    else
      var rest := Pending(files[..|files| - 1], lastDone);
      var f := files[|files| - 1];
      if lastDone.Some? && UpTo(f.name, lastDone.value) then rest else rest + [f]
  }

  lemma {:induction false} PendingIsSuffix(files: seq<File>, lastDone: Option<Name>, d: nat)
    requires Sorted(files) && d <= |files|
    requires lastDone == None ==> d == 0
    requires lastDone.Some? ==> d > 0 && files[d - 1].name == lastDone.value
    ensures Pending(files, lastDone) == files[d..]
  {
    if d < |files| {
      var last := |files| - 1;
      PendingIsSuffix(files[..last], lastDone, d);
      if lastDone.Some? {
        BeforeIsTotal(files[d - 1].name, files[last].name);
      }
      assert files[d..] == files[..last][d..] + [files[last]];
    } else {
      NonePending(files, lastDone);
    }
  }

  lemma {:induction false} NonePending(files: seq<File>, lastDone: Option<Name>)
    requires files != [] ==> lastDone.Some?
    requires forall i :: 0 <= i < |files| ==> UpTo(files[i].name, lastDone.value)
    ensures Pending(files, lastDone) == []
  {
    if files != [] {
      NonePending(files[..|files| - 1], lastDone);
    }
  }

  // ----- what the checkpoint stands for ----------------------------------------------------

  /** The full-load table with every row of the files applied, row by row, in file order. */
  function FullTable(ctx: Context, baseline: Table, files: seq<File>): Table {
    if files == [] then baseline
    else ApplyOps(FullTable(ctx, baseline, files[..|files| - 1]), RawOps(ctx, files[|files| - 1]))
  }

  /** The table a checkpoint claims: every file up to `last_done_file` row by row, then the first
      `last_offset` net operations of `in_progress_file`. */
  function Claimed(s: State, p: Pos): Table
    requires PosOk(s.ctx, s.folder, s.listed, p)
  {
    var d := DoneCount(s.folder, p.lastDone);
    var done := FullTable(s.ctx, s.baseline, s.folder[..d]);
    if p.inProgress == None then done else ApplyOps(done, Ops(s.ctx, s.folder[d])[..p.offset])
  }

  /** A checkpoint that names real files: everything up to the mark was listed and readable, and
      the file in progress is the next one. */
  predicate PosOk(ctx: Context, folder: seq<File>, listed: nat, p: Pos) {
    var d := DoneCount(folder, p.lastDone);
    && d <= listed <= |folder|
    && (p.lastDone.Some? ==> d > 0 && folder[d - 1].name == p.lastDone.value)
    && (forall i :: 0 <= i < d ==> Readable(ctx, folder[i]))
    && (p.inProgress == None ==> p.offset == 0)
    && (p.inProgress.Some? ==>
          && d < listed && folder[d].name == p.inProgress.value && Readable(ctx, folder[d])
          && 0 < p.offset <= |Ops(ctx, folder[d])|)
  }

  // ----- the position fence ----------------------------------------------------------------

  datatype Fence = Proceed | Already | Moved

  const START := Pos(None, 0, None)

  const DSQL_MAX_ROWS_PER_TXN := 3000

  /** The rows every chunk transaction writes beside its data: checkpoint, chunk log, file marker. */
  const CONTROL_ROWS := 3

  /** The most operations a chunk holds: each modifies one row. */
  const MAX_CHUNK_OPS := DSQL_MAX_ROWS_PER_TXN - CONTROL_ROWS

  /** The order checkpoints move in: by high-water mark, then by offset. */
  predicate Less(p: Pos, q: Pos) {
    match (p.lastDone, q.lastDone)
    case (None, None) => p.offset < q.offset
    case (None, Some(_)) => true
    case (Some(_), None) => false
    case (Some(a), Some(b)) => Before(a, b) || (a == b && p.offset < q.offset)
  }

  predicate AtMost(p: Pos, q: Pos) { p == q || Less(p, q) }

  /** `check_position_cur`: the first statement of every transaction that moves the checkpoint. */
  function CheckPosition(row: Db, expected: Pos, target: Option<Pos>): Fence {
    if row.blocked then Moved
    else if row.pos == expected then Proceed
    else if target == Some(row.pos) then Already
    else Moved
  }

  // ----- steps -----------------------------------------------------------------------------

  datatype Step =
    | Arrive(at: nat, file: File)
    | SetBlocked(blocked: bool)
    | Touch
    | ReadState(r: nat)
    | List(r: nat, k: nat)
    | OpenFile(r: nat)
    | MarkEmpty(r: nat)
    | BeginChunk(r: nat, upto: nat)
    | BeginDone(r: nat)
    | BeginIdle(r: nat)
    | Commit(r: nat)
    | Abort(r: nat)
    | LoseAck(r: nat)
    | OrphanCommit(i: nat)
    | Count(r: nat, acked: bool)
    | SkipCount(r: nat)
    | Fail(r: nat)
    | Crash(r: nat)

  function InsertAt(folder: seq<File>, at: nat, f: File): seq<File>
    requires at <= |folder|
  {
    folder[..at] + [f] + folder[at..]
  }

  predicate WorkingAt(s: State, r: nat) { r < |s.runs| && s.runs[r].Working? }

  predicate InFile(s: State, r: nat) {
    WorkingAt(s, r) && s.runs[r].pending != [] && s.runs[r].phase.Open? && s.runs[r].txn == None
  }

  /** A transaction can commit only on the row version it read. */
  predicate CanCommit(db: Db, t: Txn) { db.version == t.snap.version }

  predicate Enabled(s: State, step: Step) {
    match step
    case Arrive(at, f) => s.listed <= at <= |s.folder| && Sorted(InsertAt(s.folder, at, f))
    case SetBlocked(_) => true
    case Touch => true
    case ReadState(r) => r < |s.runs| && s.runs[r].Down? && !s.db.blocked
    case List(r, k) => r < |s.runs| && s.runs[r].Reading? && k <= |s.folder|
    case OpenFile(r) => WorkingAt(s, r) && s.runs[r].phase.Closed? && s.runs[r].pending != []
                        && s.runs[r].txn == None && Readable(s.ctx, s.runs[r].pending[0])
    case MarkEmpty(r) => InFile(s, r) && Ops(s.ctx, s.runs[r].pending[0]) == [] && s.runs[r].pending[0].rows != []
    case BeginChunk(r, upto) => InFile(s, r) && s.runs[r].phase.offset < upto <= |Ops(s.ctx, s.runs[r].pending[0])|
                                && upto - s.runs[r].phase.offset <= MAX_CHUNK_OPS
    case BeginDone(r) => InFile(s, r) && s.runs[r].phase.offset == |Ops(s.ctx, s.runs[r].pending[0])|
    case BeginIdle(r) => WorkingAt(s, r) && s.runs[r].pending == [] && s.runs[r].phase.Closed? && s.runs[r].txn == None
    case Commit(r) => WorkingAt(s, r) && s.runs[r].txn.Some? && CanCommit(s.db, s.runs[r].txn.value)
    case Abort(r) => WorkingAt(s, r) && s.runs[r].txn.Some?
    case LoseAck(r) => WorkingAt(s, r) && s.runs[r].txn.Some?
    case OrphanCommit(i) => i < |s.orphans| && CanCommit(s.db, s.orphans[i])
    case Count(r, _) => WorkingAt(s, r) && s.runs[r].phase.Counting? && s.runs[r].txn == None && s.runs[r].pending != []
    case SkipCount(r) => WorkingAt(s, r) && s.runs[r].phase.Counting? && s.runs[r].txn == None
                         && s.runs[r].pending != []
    case Fail(r) => r < |s.runs| && (s.runs[r].Working? ==> s.runs[r].txn == None && !s.runs[r].phase.Counting?)
    case Crash(r) => r < |s.runs|
  }

  function Slice(ops: seq<NetOp>, lo: nat, hi: nat): seq<NetOp> {
    if lo <= hi <= |ops| then ops[lo..hi] else []
  }

  /** What a transaction writes.  Its rows are computed from the snapshot it read; the ledger
      statement updates the file's row when there is one. */
  function Effect(ctx: Context, db: Db, t: Txn): Db {
    match t.work
    case ChunkWork(f, upto) =>
      var ops := Ops(ctx, f);
      var lo := t.snap.pos.offset;
      db.(target := ExecChunk(t.snap.target, Slice(ops, lo, upto)),
          pos := t.goal, blocked := false, version := db.version + 1,
          ledger := if upto >= |ops| && f.name in db.ledger
                    then db.ledger[f.name := db.ledger[f.name].(committed := true)] else db.ledger)
    case DoneWork(f) =>
      db.(pos := t.goal, blocked := false, version := db.version + 1,
          ledger := if f.name in db.ledger
                    then db.ledger[f.name := db.ledger[f.name].(done := true)] else db.ledger)
    case IdleWork => db.(pos := t.goal, blocked := false, version := db.version + 1)
  }

  function Installed(s: State, t: Txn): State {
    s.(db := Effect(s.ctx, s.db, t),
       log := if t.work.IdleWork? then s.log else s.log + [Move(t.snap.pos, t.goal)])
  }

  /** The run's view after its transaction is known to be committed. */
  function After(run: Run, t: Txn): Run
    requires run.Working?
  {
    match t.work
    case ChunkWork(_, upto) => run.(pos := t.goal, phase := Open(upto), txn := None)
    case DoneWork(_) => run.(pos := t.goal, phase := Counting, txn := None)
    case IdleWork => Down
  }

  predicate Begins(step: Step) { step.BeginChunk? || step.BeginDone? || step.BeginIdle? }

  /** The transaction a step starts. */
  function TxnOf(s: State, step: Step): Txn
    requires Enabled(s, step) && Begins(step)
  {
    var run := s.runs[step.r];
    match step
    case BeginChunk(_, upto) =>
      Txn(s.db, Pos(Some(run.pending[0].name), upto, run.pos.lastDone), ChunkWork(run.pending[0], upto))
    case BeginDone(_) => Txn(s.db, Pos(None, 0, Some(run.pending[0].name)), DoneWork(run.pending[0]))
    case BeginIdle(_) => Txn(s.db, Pos(None, 0, run.pos.lastDone), IdleWork)
  }

  /** Start a transaction: take a snapshot and check the fence in it. */
  function Begin(s: State, r: nat, t: Txn): State
    requires WorkingAt(s, r)
  {
    var run := s.runs[r];
    var target := if t.work.IdleWork? then None else Some(t.goal);
    var run' := match CheckPosition(s.db, run.pos, target)
      case Proceed => run.(txn := Some(t))
      case Already => After(run, t)
      case Moved => Down;
    s.(runs := s.runs[r := run'])
  }

  function NextFile(run: Run): Run
    requires run.Working? && run.pending != []
  {
    run.(pending := run.pending[1..], phase := Closed)
  }

  function Upserts(ctx: Context, f: File): nat { CountUpserts(Ops(ctx, f)) }

  function DeletesOf(ctx: Context, f: File): nat { CountDeletes(Ops(ctx, f)) }

  function CountDeletes(ops: seq<NetOp>): nat {
    if ops == [] then 0
    else CountDeletes(ops[..|ops| - 1]) + if ops[|ops| - 1].Delete? then 1 else 0
  }

  function Do(s: State, step: Step): State
    requires Enabled(s, step)
  {
    match step
    case Arrive(at, f) => s.(folder := InsertAt(s.folder, at, f))
    case SetBlocked(b) => s.(db := s.db.(blocked := b, version := s.db.version + 1))
    case Touch => s.(db := s.db.(version := s.db.version + 1))
    case ReadState(r) => s.(runs := s.runs[r := Reading(s.db.pos)])
    case List(r, k) =>
      var p := s.runs[r].pos;
      var pending := Pending(s.folder[..k], p.lastDone);
      s.(listed := Max(s.listed, k),
         runs := s.runs[r := if pending == [] then Down else Working(p, pending, Closed, None)])
    case OpenFile(r) =>
      var run := s.runs[r];
      var f := run.pending[0];
      var start := if run.pos.inProgress == Some(f.name) then run.pos.offset else 0;
      s.(runs := s.runs[r := run.(phase := Open(start))],
         memory := if f.rows == [] then s.memory else s.memory[r := f],
         db := s.db.(ledger := if f.rows == [] || f.name in s.db.ledger then s.db.ledger
                               else s.db.ledger[f.name := LedgerRow(false, false)]))
    case MarkEmpty(r) =>
      var name := s.runs[r].pending[0].name;
      s.(db := s.db.(ledger := if name in s.db.ledger
                               then s.db.ledger[name := s.db.ledger[name].(committed := true)] else s.db.ledger))
    case BeginChunk(r, _) => Begin(s, r, TxnOf(s, step))
    case BeginDone(r) => Begin(s, r, TxnOf(s, step))
    case BeginIdle(r) => Begin(s, r, TxnOf(s, step))
    case Commit(r) =>
      var t := s.runs[r].txn.value;
      Installed(s, t).(runs := s.runs[r := After(s.runs[r], t)])
    case Abort(r) => s.(runs := s.runs[r := s.runs[r].(txn := None)])
    case LoseAck(r) =>
      s.(runs := s.runs[r := s.runs[r].(txn := None)], orphans := s.orphans + [s.runs[r].txn.value])
    case OrphanCommit(i) => Installed(s, s.orphans[i])
    case Count(r, acked) =>
      var s' := if r in s.memory then Counted(s, s.memory[r]) else s;
      if acked then Forget(s', r).(runs := s.runs[r := NextFile(s.runs[r])]) else s'
    case SkipCount(r) => Forget(s, r).(runs := s.runs[r := NextFile(s.runs[r])])
    case Fail(r) => s.(runs := s.runs[r := Down])
    case Crash(r) => Forget(s, r).(runs := s.runs[r := Down])
  }

  /** `_advance_cdc_counters`: fold the remembered counts into the drift counters. */
  function Counted(s: State, f: File): State {
    s.(db := s.db.(inserts := s.db.inserts + Upserts(s.ctx, f), deletes := s.db.deletes + DeletesOf(s.ctx, f),
                   version := s.db.version + 1),
       counted := s.counted + [f])
  }

  function Forget(s: State, r: nat): State { s.(memory := s.memory - {r}) }
}
