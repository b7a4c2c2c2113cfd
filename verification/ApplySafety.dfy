/**
 The safety invariant of the apply engine and the proof that every step keeps it (`StepKeeps`).
 */
module ApplySafety {
  import opened Util
  import opened ChangeRows
  import opened NetOps
  import opened ApplyProtocol

  // ----- the invariant ---------------------------------------------------------------------

  /** A transaction's work is the next step from the checkpoint it expected. */
  ghost predicate WorkOk(s: State, p: Pos, goal: Pos, work: Work)
    requires PosOk(s.ctx, s.folder, s.listed, p)
  {
    var d := DoneCount(s.folder, p.lastDone);
    match work
    case ChunkWork(f, upto) =>
      && d < s.listed && s.folder[d] == f && Readable(s.ctx, f)
      && p.offset < upto <= |Ops(s.ctx, f)|
      && goal == Pos(Some(f.name), upto, p.lastDone)
      && f.name in s.db.ledger
    case DoneWork(f) =>
      && d < s.listed && s.folder[d] == f && Readable(s.ctx, f)
      && p.offset == |Ops(s.ctx, f)|
      && goal == Pos(None, 0, Some(f.name))
      && (f.rows != [] ==> f.name in s.db.ledger)
    case IdleWork => p.inProgress == None && goal == p
  }

  /** As long as the row version has not moved, the snapshot still is the table and the
      checkpoint. */
  ghost predicate TxnOk(s: State, t: Txn) {
    && PosOk(s.ctx, s.folder, s.listed, t.snap.pos)
    && !t.snap.blocked
    && t.snap.version <= s.db.version
    && (t.snap.version == s.db.version ==>
          t.snap.pos == s.db.pos && t.snap.target == s.db.target && !s.db.blocked)
    && WorkOk(s, t.snap.pos, t.goal, t.work)
  }

  /** The pending files are the listed ones right after the run's high-water mark. */
  ghost predicate PendingOk(s: State, p: Pos, pending: seq<File>, phase: Phase)
    requires s.listed <= |s.folder|
  {
    var d := DoneCount(s.folder, p.lastDone);
    && (phase.Counting? ==> d > 0 && p.inProgress == None)
    && var first := if phase.Counting? then d - 1 else d;
    && first + |pending| <= s.listed
    && (forall j :: 0 <= j < |pending| ==> pending[j] == s.folder[first + j])
    && (pending == [] ==> phase.Closed? && p.inProgress == None)
  }

  ghost predicate OpenOk(s: State, p: Pos, pending: seq<File>, phase: Phase) {
    phase.Open? ==>
      && pending != []
      && phase.offset == p.offset && Readable(s.ctx, pending[0])
      && (pending[0].rows != [] ==> pending[0].name in s.db.ledger)
  }

  ghost predicate OwnTxnOk(s: State, p: Pos, pending: seq<File>, phase: Phase, txn: Option<Txn>) {
    txn.Some? ==>
      && TxnOk(s, txn.value) && txn.value.snap.pos == p
      && (txn.value.work.IdleWork? <==> pending == [])
      && (pending != [] ==> phase.Open? && txn.value.work.file == pending[0])
  }

  ghost predicate RunOk(s: State, run: Run) {
    match run
    case Down => true
    case Reading(p) => PosOk(s.ctx, s.folder, s.listed, p) && AtMost(p, s.db.pos)
    case Working(p, pending, phase, txn) =>
      && PosOk(s.ctx, s.folder, s.listed, p) && AtMost(p, s.db.pos)
      && PendingOk(s, p, pending, phase)
      && OpenOk(s, p, pending, phase)
      && OwnTxnOk(s, p, pending, phase, txn)
  }

  /** The checkpoint has passed every operation of the `i`-th file. */
  ghost predicate Covers(s: State, p: Pos, i: nat) {
    var d := DoneCount(s.folder, p.lastDone);
    i < d || (i == d < |s.folder| && Readable(s.ctx, s.folder[i]) && p.offset == |Ops(s.ctx, s.folder[i])|)
  }

  ghost predicate Named(s: State, i: nat) requires i < |s.folder| { s.folder[i].name in s.db.ledger }

  /** The ledger says the `i`-th file is applied: what the drain check reads. */
  ghost predicate Flagged(s: State, i: nat) requires i < |s.folder| {
    Named(s, i) && (s.db.ledger[s.folder[i].name].committed || s.db.ledger[s.folder[i].name].done)
  }

  /** Only listed files that hold a data row get a ledger row. */
  ghost predicate LedgerNames(s: State) {
    forall n :: n in s.db.ledger ==>
      exists i :: 0 <= i < s.listed <= |s.folder| && s.folder[i].name == n && s.folder[i].rows != []
  }

  ghost predicate LedgerSound(s: State) requires s.listed <= |s.folder| {
    forall i :: 0 <= i < s.listed && Flagged(s, i) ==> Covers(s, s.db.pos, i)
  }

  ghost predicate LedgerDone(s: State) {
    forall i :: 0 <= i < DoneCount(s.folder, s.db.pos.lastDone) && s.folder[i].rows != [] ==>
      Named(s, i) && s.db.ledger[s.folder[i].name].done
  }

  ghost predicate LedgerFinal(s: State) {
    var d := DoneCount(s.folder, s.db.pos.lastDone);
    d < |s.folder| && s.db.pos.inProgress.Some? && s.db.pos.offset == |Ops(s.ctx, s.folder[d])| ==>
      Named(s, d) && s.db.ledger[s.folder[d].name].committed
  }

  ghost predicate LedgerOk(s: State) requires s.listed <= |s.folder| {
    LedgerNames(s) && LedgerSound(s) && LedgerDone(s) && LedgerFinal(s)
  }

  /** Each committed move starts where the one before it ended, and moves forward. */
  ghost predicate LinkOk(log: seq<Move>, i: nat) requires i < |log| {
    log[i].before == (if i == 0 then START else log[i - 1].after) && Less(log[i].before, log[i].after)
  }

  ghost predicate LogOk(s: State) {
    && (forall i :: 0 <= i < |s.log| ==> LinkOk(s.log, i))
    && s.db.pos == (if s.log == [] then START else s.log[|s.log| - 1].after)
  }

  ghost predicate DbOk(s: State) {
    && Sorted(s.folder) && s.listed <= |s.folder|
    && HasColumns(s.ctx.colIdx.Keys, s.baseline)
    && PosOk(s.ctx, s.folder, s.listed, s.db.pos)
    && s.db.target == Claimed(s, s.db.pos)
  }

  ghost predicate Inv(s: State) {
    && DbOk(s)
    && LedgerOk(s)
    && LogOk(s)
    && (forall r :: 0 <= r < |s.runs| ==> RunOk(s, s.runs[r]))
    && (forall i :: 0 <= i < |s.orphans| ==> TxnOk(s, s.orphans[i]))
  }

  /** The state right after the full load, with any runs about to start. */
  ghost predicate Init(s: State) {
    && Sorted(s.folder) && s.listed == 0
    && HasColumns(s.ctx.colIdx.Keys, s.baseline)
    && s.db.target == s.baseline && s.db.pos == START && s.db.ledger == map[]
    && s.db.inserts == 0 && s.db.deletes == 0 && s.counted == [] && s.memory == map[]
    && (forall r :: 0 <= r < |s.runs| ==> s.runs[r] == Down)
    && s.orphans == [] && s.log == []
  }

  lemma InitHolds(s: State)
    requires Init(s)
    ensures Inv(s)
  {
  }

  // ----- order of checkpoints --------------------------------------------------------------

  lemma LessIsTransitive(p: Pos, q: Pos, r: Pos)
    requires Less(p, q) && Less(q, r)
    ensures Less(p, r)
  {
    match (p.lastDone, q.lastDone, r.lastDone)
    case (Some(a), Some(b), Some(c)) =>
      if Before(a, b) && Before(b, c) { BeforeIsTransitive(a, b, c); }
    case _ =>
  }

  lemma LessIsStrict(p: Pos, q: Pos)
    requires Less(p, q)
    ensures !Less(q, p) && p != q
  {
    match (p.lastDone, q.lastDone)
    case (Some(a), Some(b)) => BeforeIsTotal(a, b);
    case _ =>
  }

  // ----- what other steps leave alone ------------------------------------------------------

  /** The folder only grows beyond what was listed; the row version only moves forward, and only
      a new version can change the checkpoint, the table or the block. */
  ghost predicate Evolves(s: State, s': State) {
    && s'.ctx == s.ctx && s'.baseline == s.baseline
    && s.listed <= s'.listed <= |s'.folder| && s.listed <= |s.folder|
    && s'.folder[..s.listed] == s.folder[..s.listed]
    && Sorted(s.folder) && Sorted(s'.folder)
    && s.db.version <= s'.db.version
    && (s.db.version == s'.db.version ==>
          s'.db.pos == s.db.pos && s'.db.target == s.db.target && s'.db.blocked == s.db.blocked)
    && AtMost(s.db.pos, s'.db.pos)
    && s.db.ledger.Keys <= s'.db.ledger.Keys
  }

  lemma FolderStable(s: State, s': State)
    requires Evolves(s, s')
    ensures forall i :: 0 <= i < s.listed ==> s'.folder[i] == s.folder[i]
  {
    forall i | 0 <= i < s.listed ensures s'.folder[i] == s.folder[i] {
      assert s'.folder[..s.listed][i] == s.folder[..s.listed][i];
    }
  }

  lemma PosStable(s: State, s': State, p: Pos)
    requires Evolves(s, s') && PosOk(s.ctx, s.folder, s.listed, p)
    ensures PosOk(s'.ctx, s'.folder, s'.listed, p)
    ensures DoneCount(s'.folder, p.lastDone) == DoneCount(s.folder, p.lastDone)
    ensures Claimed(s', p) == Claimed(s, p)
  {
    var d := DoneCount(s.folder, p.lastDone);
    FolderStable(s, s');
    if p.lastDone.Some? {
      DoneCountAt(s'.folder, d - 1);
    }
    assert s'.folder[..d] == s.folder[..d];
  }

  lemma TxnStable(s: State, s': State, t: Txn)
    requires Evolves(s, s') && TxnOk(s, t)
    ensures TxnOk(s', t)
  {
    PosStable(s, s', t.snap.pos);
    FolderStable(s, s');
  }

  lemma OpenStable(s: State, s': State, p: Pos, pending: seq<File>, phase: Phase)
    requires s'.ctx == s.ctx && s.db.ledger.Keys <= s'.db.ledger.Keys && OpenOk(s, p, pending, phase)
    ensures OpenOk(s', p, pending, phase)
  {
  }

  lemma PendingStable(s: State, s': State, p: Pos, pending: seq<File>, phase: Phase)
    requires s.listed <= |s.folder| && s.listed <= s'.listed <= |s'.folder|
    requires DoneCount(s'.folder, p.lastDone) == DoneCount(s.folder, p.lastDone)
    requires forall i :: 0 <= i < s.listed ==> s'.folder[i] == s.folder[i]
    requires PendingOk(s, p, pending, phase)
    ensures PendingOk(s', p, pending, phase)
  {
  }

  lemma RunStable(s: State, s': State, run: Run)
    requires Evolves(s, s') && RunOk(s, run)
    ensures RunOk(s', run)
  {
    match run
    case Down =>
    case Reading(p) =>
      PosStable(s, s', p);
      AtMostIsTransitive(p, s.db.pos, s'.db.pos);
    case Working(p, pending, phase, txn) =>
      PosStable(s, s', p);
      AtMostIsTransitive(p, s.db.pos, s'.db.pos);
      FolderStable(s, s');
      PendingStable(s, s', p, pending, phase);
      OpenStable(s, s', p, pending, phase);
      if txn.Some? {
        TxnStable(s, s', txn.value);
      }
  }

  lemma AtMostIsTransitive(p: Pos, q: Pos, r: Pos)
    requires AtMost(p, q) && AtMost(q, r)
    ensures AtMost(p, r)
  {
    if Less(p, q) && Less(q, r) {
      LessIsTransitive(p, q, r);
    }
  }

  // ----- one committed step ----------------------------------------------------------------

  lemma GoalIsNext(s: State, p: Pos, goal: Pos, work: Work)
    requires Sorted(s.folder) && PosOk(s.ctx, s.folder, s.listed, p) && WorkOk(s, p, goal, work)
    ensures PosOk(s.ctx, s.folder, s.listed, goal)
    ensures work.IdleWork? ==> goal == p
    ensures !work.IdleWork? ==> Less(p, goal)
    ensures work.DoneWork? ==> DoneCount(s.folder, goal.lastDone) == DoneCount(s.folder, p.lastDone) + 1
  {
    var d := DoneCount(s.folder, p.lastDone);
    match work
    case ChunkWork(f, upto) =>
    case DoneWork(f) =>
      DoneCountAt(s.folder, d);
      if p.lastDone.Some? {
        assert Before(s.folder[d - 1].name, s.folder[d].name);
      }
    case IdleWork =>
  }

  lemma {:induction false} ImagesOfSlice(cols: set<string>, ops: seq<NetOp>, lo: nat, hi: nat)
    requires lo <= hi <= |ops| && FullImages(cols, ops) && DistinctKeys(ops)
    ensures FullImages(cols, ops[lo..hi]) && DistinctKeys(ops[lo..hi])
    ensures FullImages(cols, ops[..lo])
  {
    assert forall i :: 0 <= i < hi - lo ==> ops[lo..hi][i] == ops[lo + i];
    assert forall i :: 0 <= i < lo ==> ops[..lo][i] == ops[i];
  }

  lemma OpsWriteEveryColumn(ctx: Context, f: File)
    ensures FullImages(ctx.colIdx.Keys, RawOps(ctx, f))
    ensures FullImages(ctx.colIdx.Keys, Ops(ctx, f)) && DistinctKeys(Ops(ctx, f))
  {
    if Keyed(ctx, f.rows) {
      RowOpsWriteEveryColumn(ctx, f.rows);
    }
    CollapseKeepsImages(ctx.colIdx.Keys, RawOps(ctx, f));
    CollapseOpsIsCollapse(RawOps(ctx, f));
  }

  lemma {:induction false} FullTableHasColumns(ctx: Context, baseline: Table, files: seq<File>)
    requires HasColumns(ctx.colIdx.Keys, baseline)
    ensures HasColumns(ctx.colIdx.Keys, FullTable(ctx, baseline, files))
  {
    if files != [] {
      FullTableHasColumns(ctx, baseline, files[..|files| - 1]);
      OpsWriteEveryColumn(ctx, files[|files| - 1]);
      var done := FullTable(ctx, baseline, files[..|files| - 1]);
      ApplyKeepsColumns(ctx.colIdx.Keys, done, RawOps(ctx, files[|files| - 1]));
    }
  }

  /** Running the next slice of a file's operations on a table that holds the slice before. */
  lemma SliceAdvances(cols: set<string>, done: Table, ops: seq<NetOp>, lo: nat, hi: nat)
    requires lo <= hi <= |ops| && FullImages(cols, ops) && DistinctKeys(ops) && HasColumns(cols, done)
    ensures ExecChunk(ApplyOps(done, ops[..lo]), ops[lo..hi]) == ApplyOps(done, ops[..hi])
  {
    ImagesOfSlice(cols, ops, lo, hi);
    ApplyKeepsColumns(cols, done, ops[..lo]);
    ChunkRunsItsOps(cols, ApplyOps(done, ops[..lo]), ops[lo..hi]);
    ApplyOpsConcat(done, ops[..lo], ops[lo..hi]);
    assert ops[..lo] + ops[lo..hi] == ops[..hi];
  }

  function Done(s: State, p: Pos): Table {
    FullTable(s.ctx, s.baseline, s.folder[..DoneCount(s.folder, p.lastDone)])
  }

  lemma ClaimedIsPrefix(s: State, p: Pos, f: File)
    requires PosOk(s.ctx, s.folder, s.listed, p)
    requires DoneCount(s.folder, p.lastDone) < |s.folder| && s.folder[DoneCount(s.folder, p.lastDone)] == f
    ensures p.offset <= |Ops(s.ctx, f)|
    ensures Claimed(s, p) == ApplyOps(Done(s, p), Ops(s.ctx, f)[..p.offset])
  {
  }

  /** The rows a chunk writes turn the table its snapshot claims into the table its goal claims. */
  lemma ChunkReachesGoal(s: State, p: Pos, goal: Pos, f: File, upto: nat)
    requires Sorted(s.folder) && HasColumns(s.ctx.colIdx.Keys, s.baseline)
    requires PosOk(s.ctx, s.folder, s.listed, p) && WorkOk(s, p, goal, ChunkWork(f, upto))
    requires PosOk(s.ctx, s.folder, s.listed, goal)
    ensures Claimed(s, goal) == ExecChunk(Claimed(s, p), Slice(Ops(s.ctx, f), p.offset, upto))
  {
    OpsWriteEveryColumn(s.ctx, f);
    FullTableHasColumns(s.ctx, s.baseline, s.folder[..DoneCount(s.folder, p.lastDone)]);
    ClaimedIsPrefix(s, p, f);
    ClaimedIsPrefix(s, goal, f);
    SliceAdvances(s.ctx.colIdx.Keys, Done(s, p), Ops(s.ctx, f), p.offset, upto);
  }

  /** Marking a file done moves no row: its operations are all in the table, and together they
      mean what its raw rows mean. */
  lemma DoneReachesGoal(s: State, p: Pos, goal: Pos, f: File)
    requires Sorted(s.folder)
    requires PosOk(s.ctx, s.folder, s.listed, p) && WorkOk(s, p, goal, DoneWork(f))
    requires PosOk(s.ctx, s.folder, s.listed, goal)
    ensures Claimed(s, goal) == Claimed(s, p)
  {
    var d := DoneCount(s.folder, p.lastDone);
    assert goal.inProgress == None && DoneCount(s.folder, goal.lastDone) == d + 1 by {
      GoalIsNext(s, p, goal, DoneWork(f));
    }
    assert Claimed(s, p) == ApplyOps(Done(s, p), RawOps(s.ctx, f)) by {
      AllOpsClaimed(s, p, f);
    }
    FullTableSnoc(s.ctx, s.baseline, s.folder, d);
  }

  lemma AllOpsClaimed(s: State, p: Pos, f: File)
    requires PosOk(s.ctx, s.folder, s.listed, p) && p.offset == |Ops(s.ctx, f)|
    requires DoneCount(s.folder, p.lastDone) < |s.folder| && s.folder[DoneCount(s.folder, p.lastDone)] == f
    ensures Claimed(s, p) == ApplyOps(Done(s, p), RawOps(s.ctx, f))
  {
    ClaimedIsPrefix(s, p, f);
    assert Ops(s.ctx, f)[..|Ops(s.ctx, f)|] == Ops(s.ctx, f);
    CollapsePreservesMeaning(Done(s, p), RawOps(s.ctx, f));
  }

  lemma FullTableSnoc(ctx: Context, baseline: Table, folder: seq<File>, d: nat)
    requires d < |folder|
    ensures FullTable(ctx, baseline, folder[..d + 1])
            == ApplyOps(FullTable(ctx, baseline, folder[..d]), RawOps(ctx, folder[d]))
  {
    assert folder[..d + 1][..d] == folder[..d];
  }

  lemma InstallKeepsTable(s: State, t: Txn)
    requires DbOk(s) && TxnOk(s, t) && CanCommit(s.db, t)
    ensures Evolves(s, Installed(s, t))
    ensures DbOk(Installed(s, t)) && Installed(s, t).db.pos == t.goal
  {
    var p, s' := t.snap.pos, Installed(s, t);
    GoalIsNext(s, p, t.goal, t.work);
    match t.work
    case ChunkWork(f, upto) => ChunkReachesGoal(s, p, t.goal, f, upto);
    case DoneWork(f) => DoneReachesGoal(s, p, t.goal, f);
    case IdleWork =>
    assert Claimed(s', t.goal) == Claimed(s, t.goal);
  }

  lemma LogSnoc(log: seq<Move>, m: Move)
    requires forall i :: 0 <= i < |log| ==> LinkOk(log, i)
    requires m.before == (if log == [] then START else log[|log| - 1].after) && Less(m.before, m.after)
    ensures forall i :: 0 <= i < |log + [m]| ==> LinkOk(log + [m], i)
  {
    forall i | 0 <= i < |log| ensures LinkOk(log + [m], i) {
      assert LinkOk(log, i);
    }
  }

  lemma InstallKeepsLog(s: State, t: Txn)
    requires DbOk(s) && LogOk(s) && TxnOk(s, t) && CanCommit(s.db, t)
    ensures LogOk(Installed(s, t))
  {
    GoalIsNext(s, t.snap.pos, t.goal, t.work);
    if !t.work.IdleWork? {
      LogSnoc(s.log, Move(t.snap.pos, t.goal));
    }
  }

  lemma NamesDiffer(s: State, i: nat, j: nat)
    requires Sorted(s.folder) && i < |s.folder| && j < |s.folder| && i != j
    ensures s.folder[i].name != s.folder[j].name
  {
    BeforeIsTotal(s.folder[i].name, s.folder[j].name);
  }

  /** What a commit does to the ledger: it can only set the flag of its own file. */
  ghost predicate LedgerMoves(s: State, s': State, t: Txn) {
    && s'.ctx == s.ctx && s'.folder == s.folder && s'.listed == s.listed && s'.db.pos == t.goal
    && s'.db.ledger.Keys == s.db.ledger.Keys
    && forall n :: n in s.db.ledger ==>
      && (s'.db.ledger[n].done <==> s.db.ledger[n].done || (t.work.DoneWork? && n == t.work.file.name))
      && (s'.db.ledger[n].committed <==>
            s.db.ledger[n].committed
            || (t.work.ChunkWork? && n == t.work.file.name && t.work.upto >= |Ops(s.ctx, t.work.file)|))
  }

  lemma InstallMovesLedger(s: State, t: Txn)
    ensures LedgerMoves(s, Installed(s, t), t)
  {
  }

  lemma LedgerSoundAfter(s: State, s': State, t: Txn)
    requires LedgerMoves(s, s', t) && Sorted(s.folder) && s.listed <= |s.folder|
    requires PosOk(s.ctx, s.folder, s.listed, s.db.pos)
    requires LedgerSound(s) && s.db.pos == t.snap.pos
    requires WorkOk(s, s.db.pos, t.goal, t.work)
    ensures LedgerSound(s')
  {
    GoalIsNext(s, t.snap.pos, t.goal, t.work);
    var d := DoneCount(s.folder, s.db.pos.lastDone);
    forall i | 0 <= i < s'.listed && Flagged(s', i) ensures Covers(s', s'.db.pos, i) {
      if i != d && d < |s.folder| {
        NamesDiffer(s, i, d);
      }
      if Flagged(s, i) {
        assert Covers(s, s.db.pos, i);
      }
    }
  }

  lemma LedgerDoneAfter(s: State, s': State, t: Txn)
    requires LedgerMoves(s, s', t) && Sorted(s.folder) && s.listed <= |s.folder|
    requires PosOk(s.ctx, s.folder, s.listed, s.db.pos)
    requires LedgerDone(s) && s.db.pos == t.snap.pos
    requires WorkOk(s, s.db.pos, t.goal, t.work)
    ensures LedgerDone(s')
  {
    GoalIsNext(s, t.snap.pos, t.goal, t.work);
    var d, d' := DoneCount(s.folder, s.db.pos.lastDone), DoneCount(s.folder, t.goal.lastDone);
    assert d' == if t.work.DoneWork? then d + 1 else d;
    forall i | 0 <= i < d' && s'.folder[i].rows != []
      ensures Named(s', i) && s'.db.ledger[s'.folder[i].name].done
    {
      DoneStays(s, s', t, i);
    }
  }

  lemma DoneStays(s: State, s': State, t: Txn, i: nat)
    requires LedgerMoves(s, s', t) && i < |s.folder|
    requires (Named(s, i) && s.db.ledger[s.folder[i].name].done)
             || (t.work.DoneWork? && t.work.file == s.folder[i] && Named(s, i))
    ensures Named(s', i) && s'.db.ledger[s'.folder[i].name].done
  {
  }

  lemma InstallKeepsLedger(s: State, t: Txn)
    requires Inv(s) && TxnOk(s, t) && CanCommit(s.db, t)
    ensures LedgerOk(Installed(s, t))
  {
    var s' := Installed(s, t);
    InstallMovesLedger(s, t);
    LedgerSoundAfter(s, s', t);
    LedgerDoneAfter(s, s', t);
    LedgerFinalAfter(s, s', t);
  }

  lemma LedgerFinalAfter(s: State, s': State, t: Txn)
    requires LedgerMoves(s, s', t) && Sorted(s.folder) && s.listed <= |s.folder|
    requires PosOk(s.ctx, s.folder, s.listed, s.db.pos)
    requires LedgerNames(s) && LedgerFinal(s) && s.db.pos == t.snap.pos
    requires WorkOk(s, s.db.pos, t.goal, t.work)
    ensures LedgerFinal(s') && LedgerNames(s')
  {
    GoalIsNext(s, t.snap.pos, t.goal, t.work);
  }

  // ----- every step keeps the invariant ----------------------------------------------------

  ghost predicate ClientsOk(s: State) {
    && (forall r :: 0 <= r < |s.runs| ==> RunOk(s, s.runs[r]))
    && (forall i :: 0 <= i < |s.orphans| ==> TxnOk(s, s.orphans[i]))
  }

  /** Every client a step does not touch stays as it was; the touched run is shown separately. */
  lemma OthersKeep(s: State, s': State, r: nat)
    requires ClientsOk(s) && Evolves(s, s') && |s'.runs| == |s.runs| && s.orphans <= s'.orphans
    requires forall q :: 0 <= q < |s.runs| && q != r ==> s'.runs[q] == s.runs[q]
    requires r < |s.runs| ==> RunOk(s', s'.runs[r])
    requires forall i :: |s.orphans| <= i < |s'.orphans| ==> TxnOk(s, s'.orphans[i])
    ensures ClientsOk(s')
  {
    forall q | 0 <= q < |s'.runs| ensures RunOk(s', s'.runs[q]) {
      if q != r {
        RunStable(s, s', s.runs[q]);
      }
    }
    forall i | 0 <= i < |s'.orphans| ensures TxnOk(s', s'.orphans[i]) {
      assert i < |s.orphans| ==> s'.orphans[i] == s.orphans[i];
      TxnStable(s, s', s'.orphans[i]);
    }
  }

  lemma ArriveKeeps(s: State, at: nat, f: File)
    requires Inv(s) && Enabled(s, Arrive(at, f))
    ensures Inv(Do(s, Arrive(at, f)))
  {
    var s' := Do(s, Arrive(at, f));
    assert s'.folder[..s.listed] == s.folder[..s.listed];
    FolderStable(s, s');
    PosStable(s, s', s.db.pos);
    OthersKeep(s, s', |s.runs|);
    FolderGrewLedger(s, s');
  }

  lemma FolderGrewLedger(s: State, s': State)
    requires DbOk(s) && LedgerOk(s) && Evolves(s, s') && s' == s.(folder := s'.folder)
    ensures LedgerOk(s')
  {
    FolderStable(s, s');
    PosStable(s, s', s.db.pos);
    forall i | 0 <= i < s'.listed && Flagged(s', i) ensures Covers(s', s'.db.pos, i) {
      assert Flagged(s, i);
      assert Covers(s, s.db.pos, i);
    }
    forall i | 0 <= i < DoneCount(s'.folder, s'.db.pos.lastDone) && s'.folder[i].rows != []
      ensures Named(s', i) && s'.db.ledger[s'.folder[i].name].done
    {
      assert Named(s, i);
    }
    FolderGrewNames(s, s');
  }

  lemma FolderGrewNames(s: State, s': State)
    requires LedgerNames(s) && s.listed <= s'.listed <= |s'.folder| && s'.db.ledger == s.db.ledger
    requires s.listed <= |s.folder| && forall i :: 0 <= i < s.listed ==> s'.folder[i] == s.folder[i]
    ensures LedgerNames(s')
  {
    forall n | n in s'.db.ledger
      ensures exists i :: 0 <= i < s'.listed <= |s'.folder| && s'.folder[i].name == n && s'.folder[i].rows != []
    {
      var i :| 0 <= i < s.listed && s.folder[i].name == n && s.folder[i].rows != [];
      assert s'.folder[i].name == n;
    }
  }

  /** Steps that touch only the status row's other columns, or only one run's own view. */
  lemma QuietKeeps(s: State, s': State, r: nat)
    requires Inv(s) && Evolves(s, s') && s'.folder == s.folder
    requires s'.db.pos == s.db.pos && s'.db.target == s.db.target && s'.db.ledger == s.db.ledger && s'.log == s.log
    requires |s'.runs| == |s.runs| && s.orphans <= s'.orphans
    requires forall q :: 0 <= q < |s.runs| && q != r ==> s'.runs[q] == s.runs[q]
    requires r < |s.runs| ==> RunOk(s', s'.runs[r])
    requires forall i :: |s.orphans| <= i < |s'.orphans| ==> TxnOk(s, s'.orphans[i])
    ensures Inv(s')
  {
    PosStable(s, s', s.db.pos);
    OthersKeep(s, s', r);
    LedgerListedMore(s, s');
  }

  /** Listing further does not disturb the ledger: nothing past the old end has a row. */
  lemma LedgerListedMore(s: State, s': State)
    requires DbOk(s) && LedgerOk(s) && Evolves(s, s') && s'.folder == s.folder
    requires s'.db.pos == s.db.pos && s'.db.ledger == s.db.ledger
    ensures LedgerOk(s')
  {
    forall i | 0 <= i < s'.listed && Flagged(s', i) ensures Covers(s', s'.db.pos, i) {
      var j :| 0 <= j < s.listed && s.folder[j].name == s.folder[i].name;
      if j != i {
        NamesDiffer(s, i, j);
      }
      assert Flagged(s, i);
    }
    FolderGrewNames(s, s');
    forall i | 0 <= i < DoneCount(s'.folder, s'.db.pos.lastDone) && s'.folder[i].rows != []
      ensures Named(s', i) && s'.db.ledger[s'.folder[i].name].done
    {
      assert Named(s, i);
    }
    assert LedgerFinal(s);
    var d := DoneCount(s.folder, s.db.pos.lastDone);
    if s.db.pos.inProgress.Some? && s.db.pos.offset == |Ops(s.ctx, s.folder[d])| {
      assert Named(s, d);
      assert Named(s', d);
    }
  }

  lemma PendingOfListing(ctx: Context, folder: seq<File>, listed: nat, p: Pos, k: nat)
    requires Sorted(folder) && k <= |folder| && PosOk(ctx, folder, listed, p)
    ensures var d := DoneCount(folder, p.lastDone);
            Pending(folder[..k], p.lastDone) == if d <= k then folder[d..k] else []
  {
    var d, files := DoneCount(folder, p.lastDone), folder[..k];
    if d <= k {
      assert d > 0 ==> files[d - 1] == folder[d - 1];
      PendingIsSuffix(files, p.lastDone, d);
      assert files[d..] == folder[d..k];
    } else {
      forall i | 0 <= i < k ensures UpTo(files[i].name, p.lastDone.value) {
        assert i == d - 1 || Before(folder[i].name, folder[d - 1].name);
      }
      NonePending(files, p.lastDone);
    }
  }

  lemma ListMakesRun(s: State, r: nat, k: nat)
    requires DbOk(s) && Enabled(s, List(r, k)) && RunOk(s, s.runs[r])
    ensures Evolves(s, Do(s, List(r, k))) && RunOk(Do(s, List(r, k)), Do(s, List(r, k)).runs[r])
  {
    var p, s' := s.runs[r].pos, Do(s, List(r, k));
    PendingOfListing(s.ctx, s.folder, s.listed, p, k);
    PosStable(s, s', p);
    if DoneCount(s.folder, p.lastDone) < k {
      ListedRunIsOk(s', p, k);
    }
  }

  lemma ListKeeps(s: State, r: nat, k: nat)
    requires Inv(s) && Enabled(s, List(r, k))
    ensures Inv(Do(s, List(r, k)))
  {
    assert RunOk(s, s.runs[r]);
    ListMakesRun(s, r, k);
    QuietKeeps(s, Do(s, List(r, k)), r);
  }

  lemma ListedRunIsOk(s: State, p: Pos, k: nat)
    requires PosOk(s.ctx, s.folder, s.listed, p) && AtMost(p, s.db.pos) && k <= s.listed
    requires DoneCount(s.folder, p.lastDone) < k
    ensures RunOk(s, Working(p, s.folder[DoneCount(s.folder, p.lastDone)..k], Closed, None))
  {
  }

  lemma AfterChunkIsOk(s: State, p: Pos, goal: Pos, pending: seq<File>, phase: Phase, f: File, upto: nat)
    requires s.listed <= |s.folder|
    requires PosOk(s.ctx, s.folder, s.listed, p) && PendingOk(s, p, pending, phase) && OpenOk(s, p, pending, phase)
    requires WorkOk(s, p, goal, ChunkWork(f, upto)) && pending != [] && phase.Open? && f == pending[0]
    ensures PendingOk(s, goal, pending, Open(upto)) && OpenOk(s, goal, pending, Open(upto))
  {
  }

  lemma AfterDoneIsOk(s: State, p: Pos, goal: Pos, pending: seq<File>, phase: Phase, f: File)
    requires Sorted(s.folder) && s.listed <= |s.folder|
    requires PosOk(s.ctx, s.folder, s.listed, p) && PendingOk(s, p, pending, phase)
    requires WorkOk(s, p, goal, DoneWork(f)) && pending != [] && phase.Open? && f == pending[0]
    ensures PendingOk(s, goal, pending, Counting)
  {
    GoalIsNext(s, p, goal, DoneWork(f));
  }

  /** What is left of a run once a transaction of its own is in the database is well-formed
      wherever that transaction's goal is a real, past checkpoint. */
  lemma AfterIsOk(s: State, run: Run, t: Txn)
    requires Sorted(s.folder) && s.listed <= |s.folder|
    requires run.Working? && PosOk(s.ctx, s.folder, s.listed, run.pos) && PendingOk(s, run.pos, run.pending, run.phase)
    requires OpenOk(s, run.pos, run.pending, run.phase)
    requires WorkOk(s, run.pos, t.goal, t.work)
    requires t.work.IdleWork? <==> run.pending == []
    requires run.pending != [] ==> run.phase.Open? && t.work.file == run.pending[0]
    requires AtMost(t.goal, s.db.pos)
    ensures RunOk(s, After(run, t))
  {
    GoalIsNext(s, run.pos, t.goal, t.work);
    match t.work
    case ChunkWork(f, upto) => AfterChunkIsOk(s, run.pos, t.goal, run.pending, run.phase, f, upto);
    case DoneWork(f) => AfterDoneIsOk(s, run.pos, t.goal, run.pending, run.phase, f);
    case IdleWork =>
  }

  /** A transaction about to check the fence. */
  ghost predicate Startable(s: State, r: nat, t: Txn) {
    && WorkingAt(s, r) && RunOk(s, s.runs[r]) && t.snap == s.db
    && WorkOk(s, s.runs[r].pos, t.goal, t.work)
    && (t.work.IdleWork? <==> s.runs[r].pending == [])
    && (s.runs[r].pending != [] ==> s.runs[r].phase.Open? && t.work.file == s.runs[r].pending[0])
  }

  lemma BegunRunIsOk(s: State, r: nat, t: Txn)
    requires DbOk(s) && Startable(s, r, t)
    ensures RunOk(s, Begin(s, r, t).runs[r])
  {
    var run := s.runs[r];
    if CheckPosition(s.db, run.pos, if t.work.IdleWork? then None else Some(t.goal)) == Already {
      AfterIsOk(s, run, t);
    }
  }

  lemma BeginKeeps(s: State, r: nat, t: Txn)
    requires Inv(s) && Startable(s, r, t)
    ensures Inv(Begin(s, r, t))
  {
    var s' := Begin(s, r, t);
    BegunRunIsOk(s, r, t);
    RunStable(s, s', s'.runs[r]);
    QuietKeeps(s, s', r);
  }

  /** A ledger that only gains rows without a flag, each for a listed file that holds data. */
  lemma LedgerGains(s: State, s': State, i: nat)
    requires s.listed <= |s.folder| && LedgerOk(s) && i < s.listed && s.folder[i].rows != []
    requires s' == s.(db := s.db.(ledger := s.db.ledger[s.folder[i].name := LedgerRow(false, false)]),
                      runs := s'.runs, memory := s'.memory)
    requires s.folder[i].name !in s.db.ledger
    ensures LedgerOk(s')
  {
    var name := s.folder[i].name;
    forall j | 0 <= j < s'.listed && Flagged(s', j) ensures Covers(s', s'.db.pos, j) {
      assert Flagged(s, j);
      assert Covers(s, s.db.pos, j);
    }
    forall j | 0 <= j < DoneCount(s'.folder, s'.db.pos.lastDone) && s'.folder[j].rows != []
      ensures Named(s', j) && s'.db.ledger[s'.folder[j].name].done
    {
      assert Named(s, j);
    }
    LedgerNamesGrow(s, s', i);
    assert LedgerFinal(s') by {
      assert LedgerFinal(s);
    }
  }

  lemma LedgerNamesGrow(s: State, s': State, i: nat)
    requires LedgerNames(s) && i < s.listed <= |s.folder| && s.folder[i].rows != []
    requires s'.folder == s.folder && s'.listed == s.listed
    requires s'.db.ledger.Keys == s.db.ledger.Keys + {s.folder[i].name}
    ensures LedgerNames(s')
  {
    forall n | n in s'.db.ledger
      ensures exists j :: 0 <= j < s'.listed <= |s'.folder| && s'.folder[j].name == n && s'.folder[j].rows != []
    {
      if n in s.db.ledger {
        var j :| 0 <= j < s.listed && s.folder[j].name == n && s.folder[j].rows != [];
        assert s'.folder[j].name == n;
      } else {
        assert s'.folder[i].name == n;
      }
    }
  }

  lemma OpenKeepsLedger(s: State, r: nat)
    requires DbOk(s) && LedgerOk(s) && Enabled(s, OpenFile(r)) && RunOk(s, s.runs[r])
    ensures LedgerOk(Do(s, OpenFile(r)))
  {
    var s' := Do(s, OpenFile(r));
    var f := s.runs[r].pending[0];
    var d := DoneCount(s.folder, s.runs[r].pos.lastDone);
    assert s.folder[d] == f;
    if f.rows == [] || f.name in s.db.ledger {
      LedgerListedMore(s, s');
    } else {
      LedgerGains(s, s', d);
    }
  }

  lemma OpenEvolves(s: State, r: nat)
    requires DbOk(s) && Enabled(s, OpenFile(r))
    ensures Evolves(s, Do(s, OpenFile(r)))
  {
  }

  lemma OpenedRunIsOk(s: State, run: Run, f: File)
    requires run.Working? && run.phase.Closed? && run.txn == None && run.pending != [] && run.pending[0] == f
    requires RunOk(s, run) && Readable(s.ctx, f) && (f.rows != [] ==> f.name in s.db.ledger)
    ensures RunOk(s, run.(phase := Open(if run.pos.inProgress == Some(f.name) then run.pos.offset else 0)))
  {
    var d := DoneCount(s.folder, run.pos.lastDone);
    assert s.folder[d] == run.pending[0];
  }

  /** A step that writes only the ledger keeps everything else. */
  lemma LedgerStepKeeps(s: State, s': State, r: nat)
    requires Inv(s) && s' == s.(db := s.db.(ledger := s'.db.ledger), runs := s'.runs, memory := s'.memory)
    requires Evolves(s, s') && LedgerOk(s')
    requires |s'.runs| == |s.runs| && forall i :: 0 <= i < |s.runs| && i != r ==> s'.runs[i] == s.runs[i]
    requires r < |s.runs| ==> RunOk(s', s'.runs[r])
    ensures Inv(s')
  {
    PosStable(s, s', s.db.pos);
    OthersKeep(s, s', r);
  }

  lemma OpenMakesRun(s: State, r: nat)
    requires DbOk(s) && Enabled(s, OpenFile(r)) && RunOk(s, s.runs[r]) && Evolves(s, Do(s, OpenFile(r)))
    ensures RunOk(Do(s, OpenFile(r)), Do(s, OpenFile(r)).runs[r])
  {
    var s', run := Do(s, OpenFile(r)), s.runs[r];
    RunStable(s, s', run);
    OpenedRunIsOk(s', run, run.pending[0]);
  }

  lemma OpenKeeps(s: State, r: nat)
    requires Inv(s) && Enabled(s, OpenFile(r))
    ensures Inv(Do(s, OpenFile(r)))
  {
    assert RunOk(s, s.runs[r]);
    OpenKeepsLedger(s, r);
    OpenEvolves(s, r);
    OpenMakesRun(s, r);
    LedgerStepKeeps(s, Do(s, OpenFile(r)), r);
  }

  lemma {:induction false} DoneCountGrows(folder: seq<File>, p: Pos, q: Pos)
    requires AtMost(p, q)
    ensures DoneCount(folder, p.lastDone) <= DoneCount(folder, q.lastDone)
  {
    if folder != [] && p.lastDone.Some? && q.lastDone.Some? {
      var last := |folder| - 1;
      DoneCountGrows(folder[..last], p, q);
      if Before(folder[last].name, p.lastDone.value) && Before(p.lastDone.value, q.lastDone.value) {
        BeforeIsTransitive(folder[last].name, p.lastDone.value, q.lastDone.value);
      }
    }
  }

  lemma FlaggedIsCovered(s: State, s': State, d: nat, i: nat)
    requires Sorted(s.folder) && s.listed <= |s.folder| && LedgerSound(s) && d < |s.folder| && Covers(s, s.db.pos, d)
    requires s' == s.(db := s.db.(ledger := s'.db.ledger)) && i < s.listed && Flagged(s', i)
    requires forall n :: n in s'.db.ledger && n != s.folder[d].name ==>
             n in s.db.ledger && s'.db.ledger[n] == s.db.ledger[n]
    ensures Covers(s', s'.db.pos, i)
  {
    if i != d {
      NamesDiffer(s, i, d);
      assert Flagged(s, i);
      assert Covers(s, s.db.pos, i);
    }
  }

  /** Setting the flag of a file whose every operation the checkpoint has passed. */
  lemma LedgerFlags(s: State, s': State, d: nat, row: LedgerRow)
    requires Sorted(s.folder) && s.listed <= |s.folder| && LedgerOk(s) && d < s.listed && Named(s, d)
    requires Covers(s, s.db.pos, d) && row == s.db.ledger[s.folder[d].name].(committed := true)
    requires s' == s.(db := s.db.(ledger := s.db.ledger[s.folder[d].name := row]))
    ensures LedgerOk(s')
  {
    assert LedgerSound(s') by {
      forall i | 0 <= i < s'.listed && Flagged(s', i) ensures Covers(s', s'.db.pos, i) {
        FlaggedIsCovered(s, s', d, i);
      }
    }
    FlagsStay(s, s', d, row);
  }

  lemma FlagsStay(s: State, s': State, d: nat, row: LedgerRow)
    requires s.listed <= |s.folder| && LedgerNames(s) && LedgerDone(s) && LedgerFinal(s) && d < s.listed && Named(s, d)
    requires row == s.db.ledger[s.folder[d].name].(committed := true)
    requires s' == s.(db := s.db.(ledger := s.db.ledger[s.folder[d].name := row]))
    ensures LedgerNames(s') && LedgerDone(s') && LedgerFinal(s')
  {
    assert s'.db.ledger.Keys == s.db.ledger.Keys;
    forall i | 0 <= i < DoneCount(s'.folder, s'.db.pos.lastDone) && s'.folder[i].rows != []
      ensures Named(s', i) && s'.db.ledger[s'.folder[i].name].done
    {
      assert Named(s, i);
    }
  }

  lemma MarkEmptyKeepsLedger(s: State, r: nat)
    requires DbOk(s) && LedgerOk(s) && Enabled(s, MarkEmpty(r)) && RunOk(s, s.runs[r])
    ensures LedgerOk(Do(s, MarkEmpty(r)))
  {
    var run := s.runs[r];
    var d := DoneCount(s.folder, run.pos.lastDone);
    assert s.folder[d] == run.pending[0];
    DoneCountGrows(s.folder, run.pos, s.db.pos);
    assert Covers(s, s.db.pos, d);
    LedgerFlags(s, Do(s, MarkEmpty(r)), d, s.db.ledger[s.folder[d].name].(committed := true));
  }

  lemma MarkEmptyEvolves(s: State, r: nat)
    requires DbOk(s) && Enabled(s, MarkEmpty(r))
    ensures Evolves(s, Do(s, MarkEmpty(r)))
  {
  }

  lemma MarkEmptyKeeps(s: State, r: nat)
    requires Inv(s) && Enabled(s, MarkEmpty(r))
    ensures Inv(Do(s, MarkEmpty(r)))
  {
    assert RunOk(s, s.runs[r]);
    MarkEmptyKeepsLedger(s, r);
    MarkEmptyEvolves(s, r);
    LedgerStepKeeps(s, Do(s, MarkEmpty(r)), |s.runs|);
  }

  lemma InstallKeeps(s: State, t: Txn, r: nat, run': Run)
    requires Inv(s) && TxnOk(s, t) && CanCommit(s.db, t)
    requires r < |s.runs| ==> RunOk(Installed(s, t).(runs := s.runs[r := run']), run')
    ensures r < |s.runs| ==> Inv(Installed(s, t).(runs := s.runs[r := run']))
    ensures r >= |s.runs| ==> Inv(Installed(s, t))
  {
    InstallKeepsTable(s, t);
    InstallKeepsLog(s, t);
    InstallKeepsLedger(s, t);
    var s1 := Installed(s, t);
    var s' := if r < |s.runs| then s1.(runs := s.runs[r := run']) else s1;
    SameButRuns(s1, s');
    OthersKeep(s, s', r);
  }

  lemma SameButRuns(s: State, s': State)
    requires s' == s.(runs := s'.runs, memory := s'.memory) && DbOk(s) && LogOk(s) && LedgerOk(s)
    ensures DbOk(s') && LogOk(s') && LedgerOk(s')
  {
    PosStable(s, s', s.db.pos);
    LedgerListedMore(s, s');
  }

  lemma CommitMakesRun(s: State, r: nat)
    requires DbOk(s) && Enabled(s, Commit(r)) && RunOk(s, s.runs[r])
    requires Evolves(s, Installed(s, s.runs[r].txn.value)) && DbOk(Installed(s, s.runs[r].txn.value))
    requires Installed(s, s.runs[r].txn.value).db.pos == s.runs[r].txn.value.goal
    ensures RunOk(Do(s, Commit(r)), Do(s, Commit(r)).runs[r])
  {
    var run, t := s.runs[r], s.runs[r].txn.value;
    var s1, s' := Installed(s, t), Do(s, Commit(r));
    RunStable(s, s1, run);
    TxnStable(s, s1, t);
    AfterIsOk(s1, run, t);
    RunStable(s1, s', After(run, t));
  }

  lemma CommitKeeps(s: State, r: nat)
    requires Inv(s) && Enabled(s, Commit(r))
    ensures Inv(Do(s, Commit(r)))
  {
    var t := s.runs[r].txn.value;
    assert RunOk(s, s.runs[r]);
    InstallKeepsTable(s, t);
    CommitMakesRun(s, r);
    InstallKeeps(s, t, r, After(s.runs[r], t));
  }

  /** The work of the transactions a run starts is the next step from its own checkpoint. */
  lemma StartsNextStep(s: State, step: Step)
    requires DbOk(s) && Enabled(s, step) && Begins(step) && RunOk(s, s.runs[step.r])
    ensures Startable(s, step.r, TxnOf(s, step))
  {
    var run := s.runs[step.r];
    if run.pending != [] {
      assert s.folder[DoneCount(s.folder, run.pos.lastDone)] == run.pending[0];
    }
  }

  lemma NextFileIsOk(s: State, run: Run)
    requires run.Working? && run.phase.Counting? && run.pending != [] && run.txn == None && RunOk(s, run)
    requires s.listed <= |s.folder|
    ensures RunOk(s, NextFile(run))
  {
    var d := DoneCount(s.folder, run.pos.lastDone);
    assert forall j :: 0 <= j < |run.pending| - 1 ==> run.pending[1..][j] == run.pending[j + 1] == s.folder[d + j];
    assert PendingOk(s, run.pos, run.pending[1..], Closed);
  }

  predicate IsLocal(step: Step, r: nat) {
    step in {ReadState(r), Abort(r), LoseAck(r), SkipCount(r), Fail(r), Crash(r)}
  }

  lemma LocalMakesRun(s: State, step: Step, r: nat)
    requires DbOk(s) && Enabled(s, step) && IsLocal(step, r) && RunOk(s, s.runs[r])
    ensures Evolves(s, Do(s, step)) && RunOk(s, Do(s, step).runs[r])
    ensures step.LoseAck? ==> TxnOk(s, s.runs[r].txn.value)
  {
    if step.SkipCount? {
      NextFileIsOk(s, s.runs[r]);
    }
  }

  lemma LocalKeeps(s: State, step: Step, r: nat)
    requires Inv(s) && Enabled(s, step) && IsLocal(step, r)
    ensures Inv(Do(s, step))
  {
    var s' := Do(s, step);
    assert RunOk(s, s.runs[r]);
    LocalMakesRun(s, step, r);
    RunStable(s, s', s'.runs[r]);
    QuietKeeps(s, s', r);
  }

  lemma RowKeeps(s: State, step: Step)
    requires Inv(s) && Enabled(s, step) && (step.SetBlocked? || step.Touch?)
    ensures Inv(Do(s, step))
  {
    QuietKeeps(s, Do(s, step), |s.runs|);
  }

  lemma CountMakesRun(s: State, r: nat, acked: bool)
    requires DbOk(s) && Enabled(s, Count(r, acked)) && RunOk(s, s.runs[r])
    ensures Evolves(s, Do(s, Count(r, acked))) && RunOk(s, Do(s, Count(r, acked)).runs[r])
  {
    NextFileIsOk(s, s.runs[r]);
  }

  lemma CountKeeps(s: State, r: nat, acked: bool)
    requires Inv(s) && Enabled(s, Count(r, acked))
    ensures Inv(Do(s, Count(r, acked)))
  {
    var s' := Do(s, Count(r, acked));
    assert RunOk(s, s.runs[r]);
    CountMakesRun(s, r, acked);
    RunStable(s, s', s'.runs[r]);
    QuietKeeps(s, s', r);
  }

  lemma StepKeeps(s: State, step: Step)
    requires Inv(s) && Enabled(s, step)
    ensures Inv(Do(s, step))
  {
    if step.Arrive? {
      ArriveKeeps(s, step.at, step.file);
    } else if step.SetBlocked? || step.Touch? {
      RowKeeps(s, step);
    } else if step.List? {
      ListKeeps(s, step.r, step.k);
    } else if step.OpenFile? {
      OpenKeeps(s, step.r);
    } else if step.MarkEmpty? {
      MarkEmptyKeeps(s, step.r);
    } else if Begins(step) {
      assert RunOk(s, s.runs[step.r]);
      StartsNextStep(s, step);
      BeginKeeps(s, step.r, TxnOf(s, step));
    } else if step.Commit? {
      CommitKeeps(s, step.r);
    } else if step.OrphanCommit? {
      InstallKeeps(s, s.orphans[step.i], |s.runs|, Down);
    } else if step.Count? {
      CountKeeps(s, step.r, step.acked);
    } else {
      LocalKeeps(s, step, step.r);
    }
  }
}
