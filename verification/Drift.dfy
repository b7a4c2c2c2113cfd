/**
 The row-drift detector (`_advance_cdc_counters`, `guard_drift` and the check in
 `process_table` of scripts/glue_cdc_composite.py): what the difference between the live row
 count and `full_load_rows + inserts_applied - deletes_applied` really measures.
 */
module Drift {
  import opened Util
  import opened ChangeRows
  import opened NetOps
  import opened ApplyProtocol
  import opened ApplySafety
  import opened ApplyTheorems

  /** Every operation the checkpoint says is in the table, in order. */
  function Applied(s: State, p: Pos): seq<NetOp>
    requires PosOk(s.ctx, s.folder, s.listed, p)
  {
    var d := DoneCount(s.folder, p.lastDone);
    AllOps(s.ctx, s.folder[..d]) + if p.inProgress == None then [] else Ops(s.ctx, s.folder[d])[..p.offset]
  }

  function AllOps(ctx: Context, files: seq<File>): seq<NetOp> {
    if files == [] then [] else AllOps(ctx, files[..|files| - 1]) + Ops(ctx, files[|files| - 1])
  }

  lemma {:induction false} FullTableIsAllOps(ctx: Context, baseline: Table, files: seq<File>)
    ensures FullTable(ctx, baseline, files) == ApplyOps(baseline, AllOps(ctx, files))
  {
    if files != [] {
      var front, f := files[..|files| - 1], files[|files| - 1];
      FullTableIsAllOps(ctx, baseline, front);
      CollapsePreservesMeaning(FullTable(ctx, baseline, front), RawOps(ctx, f));
      ApplyOpsConcat(baseline, AllOps(ctx, front), Ops(ctx, f));
    }
  }

  // ----- counting rows ---------------------------------------------------------------------

  /** Upserts that met an existing key, when the operations run in order. */
  function Hits(t: Table, ops: seq<NetOp>): nat {
    if ops == [] then 0
    else
      var front, op := ops[..|ops| - 1], ops[|ops| - 1];
      Hits(t, front) + if op.Upsert? && op.key in ApplyOps(t, front) then 1 else 0
  }

  /** Deletes that found no row. */
  function Misses(t: Table, ops: seq<NetOp>): nat {
    if ops == [] then 0
    else
      var front, op := ops[..|ops| - 1], ops[|ops| - 1];
      Misses(t, front) + if op.Delete? && op.key !in ApplyOps(t, front) then 1 else 0
  }

  function Net(ops: seq<NetOp>): int { CountUpserts(ops) - CountDeletes(ops) }

  lemma {:induction false} RowsAfter(t: Table, ops: seq<NetOp>)
    ensures |ApplyOps(t, ops)| == |t| + Net(ops) - Hits(t, ops) + Misses(t, ops)
  {
    if ops != [] {
      var front, op := ops[..|ops| - 1], ops[|ops| - 1];
      RowsAfter(t, front);
      OneRow(ApplyOps(t, front), op);
    }
  }

  lemma OneRow(t: Table, op: NetOp)
    ensures op.Upsert? ==> |ApplyOp(t, op)| == |t| + if op.key in t then 0 else 1
    ensures op.Delete? ==> |ApplyOp(t, op)| == |t| - if op.key in t then 1 else 0
  {
    var t' := ApplyOp(t, op);
    match op
    case Delete(k) =>
      assert t'.Keys == t.Keys - {k};
    case Upsert(k, _) =>
      assert t'.Keys == t.Keys + {k};
  }

  lemma {:induction false} NetConcat(a: seq<NetOp>, b: seq<NetOp>)
    ensures Net(a + b) == Net(a) + Net(b)
  {
    if b == [] {
      assert a + b == a;
    } else {
      assert (a + b)[..|a + b| - 1] == a + b[..|b| - 1];
      NetConcat(a, b[..|b| - 1]);
    }
  }

  // ----- the counters ----------------------------------------------------------------------

  function UpsertsOf(ctx: Context, files: seq<File>): nat {
    if files == [] then 0 else UpsertsOf(ctx, files[..|files| - 1]) + Upserts(ctx, files[|files| - 1])
  }

  function DeletesIn(ctx: Context, files: seq<File>): nat {
    if files == [] then 0 else DeletesIn(ctx, files[..|files| - 1]) + DeletesOf(ctx, files[|files| - 1])
  }

  lemma OneMoreFile(ctx: Context, files: seq<File>, f: File)
    ensures UpsertsOf(ctx, files + [f]) == UpsertsOf(ctx, files) + Upserts(ctx, f)
    ensures DeletesIn(ctx, files + [f]) == DeletesIn(ctx, files) + DeletesOf(ctx, f)
  {
    assert (files + [f])[..|files|] == files;
  }

  lemma {:induction false} NetOfFiles(ctx: Context, files: seq<File>)
    ensures Net(AllOps(ctx, files)) == UpsertsOf(ctx, files) - DeletesIn(ctx, files)
  {
    if files != [] {
      NetOfFiles(ctx, files[..|files| - 1]);
      NetConcat(AllOps(ctx, files[..|files| - 1]), Ops(ctx, files[|files| - 1]));
    }
  }

  ghost predicate CountersOk(s: State) {
    s.db.inserts == UpsertsOf(s.ctx, s.counted) && s.db.deletes == DeletesIn(s.ctx, s.counted)
  }

  lemma OnlyCountCounts(s: State, step: Step)
    requires Enabled(s, step) && !step.Count?
    ensures var s' := Do(s, step);
            s'.db.inserts == s.db.inserts && s'.db.deletes == s.db.deletes && s'.counted == s.counted && s'.ctx == s.ctx
  {
  }

  lemma CountAdds(s: State, r: nat, acked: bool)
    requires Enabled(s, Count(r, acked)) && r in s.memory
    ensures var s', f := Do(s, Count(r, acked)), s.memory[r];
            && s'.ctx == s.ctx && s'.counted == s.counted + [f]
            && s'.db.inserts == s.db.inserts + Upserts(s.ctx, f) && s'.db.deletes == s.db.deletes + DeletesOf(s.ctx, f)
  {
  }

  lemma CountAddsNothing(s: State, r: nat, acked: bool)
    requires Enabled(s, Count(r, acked)) && r !in s.memory
    ensures var s' := Do(s, Count(r, acked));
            s'.db.inserts == s.db.inserts && s'.db.deletes == s.db.deletes && s'.counted == s.counted && s'.ctx == s.ctx
  {
  }

  lemma CountersKept(s: State, step: Step)
    requires CountersOk(s) && Enabled(s, step)
    ensures CountersOk(Do(s, step))
  {
    if !step.Count? {
      OnlyCountCounts(s, step);
    } else if step.r in s.memory {
      CountAdds(s, step.r, step.acked);
      OneMoreFile(s.ctx, s.counted, s.memory[step.r]);
    } else {
      CountAddsNothing(s, step.r, step.acked);
    }
  }

  lemma {:induction false} CountersReached(s: State, steps: seq<Step>)
    requires CountersOk(s) && Legal(s, steps)
    ensures CountersOk(Exec(s, steps))
    decreases |steps|
  {
    if steps != [] {
      CountersKept(s, steps[0]);
      CountersReached(Do(s, steps[0]), steps[1..]);
    }
  }

  // ----- guard_drift -----------------------------------------------------------------------

  datatype Verdict = Verdict(fired: bool, delta: int, expected: int)

  function GuardDrift(live: nat, fullLoadRows: nat, inserts: nat, deletes: nat, tolerance: real): Verdict {
    var expected := fullLoadRows + inserts - deletes;
    var delta := live - expected;
    Verdict((if delta < 0 then -delta else delta) as real > tolerance, delta, expected)
  }

  /** The delta the detector computes in a state, from the table's true full-load count. */
  function Delta(s: State): int {
    GuardDrift(|s.db.target|, |s.baseline|, s.db.inserts, s.db.deletes, 0.0).delta
  }

  lemma TargetIsApplied(s: State)
    requires Inv(s)
    ensures s.db.target == ApplyOps(s.baseline, Applied(s, s.db.pos))
  {
    var p := s.db.pos;
    var d := DoneCount(s.folder, p.lastDone);
    FullTableIsAllOps(s.ctx, s.baseline, s.folder[..d]);
    if p.inProgress.Some? {
      ApplyOpsConcat(s.baseline, AllOps(s.ctx, s.folder[..d]), Ops(s.ctx, s.folder[d])[..p.offset]);
    } else {
      assert Applied(s, p) == AllOps(s.ctx, s.folder[..d]);
    }
  }

  /** The law behind the detector, in every reachable state of any number of runs: the delta is
      the deletes that found no row, less the upserts that met an existing key, plus the
      operations that are in the table but not (or not once) in the counters. */
  lemma DriftMeasures(s: State, steps: seq<Step>)
    requires Init(s) && Legal(s, steps)
    ensures
      var e := Exec(s, steps);
      && PosOk(e.ctx, e.folder, e.listed, e.db.pos)
      && var ops := Applied(e, e.db.pos);
      Delta(e) == Misses(e.baseline, ops) - Hits(e.baseline, ops)
                  + (Net(ops) - (UpsertsOf(e.ctx, e.counted) - DeletesIn(e.ctx, e.counted)))
  {
    InitHolds(s);
    Reached(s, steps);
    CountersReached(s, steps);
    var e := Exec(s, steps);
    TargetIsApplied(e);
    RowsAfter(e.baseline, Applied(e, e.db.pos));
  }

  /** So whether the detector fires is a matter of that number alone, in either direction. */
  lemma DetectorFiresExactly(s: State, steps: seq<Step>, tolerance: real)
    requires Init(s) && Legal(s, steps)
    ensures
      var e := Exec(s, steps);
      && PosOk(e.ctx, e.folder, e.listed, e.db.pos)
      && var ops := Applied(e, e.db.pos);
         var drift := Misses(e.baseline, ops) - Hits(e.baseline, ops)
                      + (Net(ops) - (UpsertsOf(e.ctx, e.counted) - DeletesIn(e.ctx, e.counted)));
         GuardDrift(|e.db.target|, |e.baseline|, e.db.inserts, e.db.deletes, tolerance).fired
         <==> drift as real > tolerance || (-drift) as real > tolerance
  {
    DriftMeasures(s, steps);
  }

  // ----- a single crash-free run -----------------------------------------------------------

  /** One run at a time, no crash, no lost acknowledgement, and no failed counter write. */
  predicate Calm(step: Step) {
    !(step.Crash? || step.LoseAck? || step.SkipCount? || (step.Count? && !step.acked))
  }

  /** The files that hold a data row: only they leave counts to add. */
  function WithRows(files: seq<File>): seq<File> {
    if files == [] then []
    else
      var rest, f := WithRows(files[..|files| - 1]), files[|files| - 1];
      if f.rows == [] then rest else rest + [f]
  }

  lemma NoRowsNoOps(ctx: Context, f: File)
    requires f.rows == []
    ensures Upserts(ctx, f) == 0 && DeletesOf(ctx, f) == 0
  {
    assert RawOps(ctx, f) == [];
  }

  lemma {:induction false} EmptyFilesCountNothing(ctx: Context, files: seq<File>)
    ensures UpsertsOf(ctx, WithRows(files)) == UpsertsOf(ctx, files)
    ensures DeletesIn(ctx, WithRows(files)) == DeletesIn(ctx, files)
  {
    if files != [] {
      var n := |files| - 1;
      EmptyFilesCountNothing(ctx, files[..n]);
      assert files[..n] + [files[n]] == files;
      OneMoreFile(ctx, files[..n], files[n]);
      if files[n].rows == [] {
        NoRowsNoOps(ctx, files[n]);
        assert WithRows(files) == WithRows(files[..n]);
      } else {
        OneMoreFile(ctx, WithRows(files[..n]), files[n]);
        assert WithRows(files) == WithRows(files[..n]) + [files[n]];
      }
    }
  }

  lemma WithRowsNext(folder: seq<File>, n: nat)
    requires n < |folder|
    ensures WithRows(folder[..n + 1])
            == if folder[n].rows == [] then WithRows(folder[..n]) else WithRows(folder[..n]) + [folder[n]]
  {
    assert folder[..n + 1][..n] == folder[..n];
  }

  /** The file the run is at: the one it is counting, or the next one to apply. */
  function FileAt(s: State): nat
    requires |s.runs| == 1
  {
    var d := DoneCount(s.folder, s.db.pos.lastDone);
    if s.runs[0].Working? && s.runs[0].phase.Counting? && d > 0 then d - 1 else d
  }

  /** The process remembers counts of that file only, and does while the file is open. */
  ghost predicate MemoryOk(s: State)
    requires |s.runs| == 1 && s.listed <= |s.folder|
  {
    && (0 in s.memory ==>
          FileAt(s) < s.listed && s.memory[0] == s.folder[FileAt(s)] && s.folder[FileAt(s)].rows != [])
    && (s.runs[0].Working? && !s.runs[0].phase.Closed? && FileAt(s) < s.listed && s.folder[FileAt(s)].rows != [] ==>
          0 in s.memory)
  }

  /** The run expects the checkpoint there is. */
  ghost predicate CalmRun(s: State) {
    && |s.runs| == 1 && s.orphans == []
    && var d := DoneCount(s.folder, s.db.pos.lastDone);
    && d <= s.listed <= |s.folder|
    && (!s.runs[0].Down? ==> s.runs[0].pos == s.db.pos)
    && (s.runs[0].Working? && s.runs[0].phase.Counting? ==> d > 0)
  }

  /** The counters hold the files up to the high-water mark, except the one whose counters the
      run is about to write. */
  ghost predicate CalmOk(s: State) {
    CalmRun(s) && s.counted == WithRows(s.folder[..FileAt(s)]) && MemoryOk(s)
  }

  /** A commit either leaves the file the run is at, or marks it done: then it is being counted. */
  lemma CommitStaysAtFile(s: State)
    requires Inv(s) && CalmRun(s) && Enabled(s, Commit(0))
    ensures CalmRun(Do(s, Commit(0))) && FileAt(Do(s, Commit(0))) == FileAt(s)
  {
    assert RunOk(s, s.runs[0]);
    var t := s.runs[0].txn.value;
    InstallKeepsTable(s, t);
    GoalIsNext(s, t.snap.pos, t.goal, t.work);
  }

  lemma CommitKeepsMemory(s: State)
    requires Inv(s) && CalmOk(s) && Enabled(s, Commit(0))
    ensures var s' := Do(s, Commit(0));
            && s'.memory == s.memory && s'.folder == s.folder && s'.listed == s.listed && s'.counted == s.counted
            && (s'.runs[0].Working? && !s'.runs[0].phase.Closed? ==> s.runs[0].phase.Open?)
  {
    assert RunOk(s, s.runs[0]);
  }

  lemma CalmCommit(s: State)
    requires Inv(s) && CalmOk(s) && Enabled(s, Commit(0))
    ensures CalmOk(Do(s, Commit(0)))
  {
    CommitStaysAtFile(s);
    CommitKeepsMemory(s);
  }

  lemma CalmOpen(s: State)
    requires Inv(s) && CalmOk(s) && Enabled(s, OpenFile(0))
    ensures CalmOk(Do(s, OpenFile(0)))
  {
    assert RunOk(s, s.runs[0]);
    assert s.runs[0].pending[0] == s.folder[FileAt(s)];
  }

  /** A calm run finds the checkpoint it expects, so it never skips a step as committed. */
  lemma CalmBeginTxn(s: State, t: Txn)
    requires CalmOk(s) && WorkingAt(s, 0) && !s.runs[0].phase.Counting?
    requires s.runs[0].pos != t.goal || t.work.IdleWork?
    ensures CalmOk(Begin(s, 0, t))
  {
  }

  lemma CalmCount(s: State)
    requires Inv(s) && CalmOk(s) && Enabled(s, Count(0, true))
    ensures CalmOk(Do(s, Count(0, true)))
  {
    WithRowsNext(s.folder, FileAt(s));
    CountedIs(s);
  }

  /** Counting a file adds exactly that file's counts, and the process forgets them. */
  lemma CountedIs(s: State)
    requires Inv(s) && CalmOk(s) && Enabled(s, Count(0, true))
    ensures var s', at := Do(s, Count(0, true)), FileAt(s);
            && s'.counted == (if s.folder[at].rows == [] then s.counted else s.counted + [s.folder[at]])
            && 0 !in s'.memory && |s'.runs| == 1 && FileAt(s') == at + 1
            && s'.orphans == [] && s'.folder == s.folder && s'.listed == s.listed && s'.db.pos == s.db.pos
            && s'.runs[0] == NextFile(s.runs[0])
  {
  }

  lemma SamePrefix(a: seq<File>, b: seq<File>, n: nat, d: nat)
    requires d <= n <= |a| && n <= |b| && a[..n] == b[..n]
    ensures a[..d] == b[..d]
  {
    assert a[..d] == a[..n][..d] == b[..n][..d] == b[..d];
  }

  lemma CalmArrive(s: State, at: nat, f: File)
    requires Inv(s) && CalmOk(s) && Enabled(s, Arrive(at, f))
    ensures CalmOk(Do(s, Arrive(at, f)))
  {
    var s' := Do(s, Arrive(at, f));
    assert s'.folder[..s.listed] == s.folder[..s.listed];
    FolderStable(s, s');
    CalmGrown(s, s');
  }

  lemma GrownAt(s: State, s': State)
    requires DbOk(s) && CalmRun(s) && Evolves(s, s') && s' == s.(folder := s'.folder)
    ensures CalmRun(s') && FileAt(s') == FileAt(s)
  {
    PosStable(s, s', s.db.pos);
  }

  lemma GrownMemory(s: State, s': State)
    requires CalmRun(s) && CalmRun(s') && MemoryOk(s) && FileAt(s') == FileAt(s) && s' == s.(folder := s'.folder)
    requires forall i :: 0 <= i < s.listed ==> s'.folder[i] == s.folder[i]
    ensures MemoryOk(s')
  {
  }

  lemma CalmGrown(s: State, s': State)
    requires DbOk(s) && CalmOk(s) && Evolves(s, s') && s' == s.(folder := s'.folder)
    requires forall i :: 0 <= i < s.listed ==> s'.folder[i] == s.folder[i]
    ensures CalmOk(s')
  {
    GrownAt(s, s');
    GrownMemory(s, s');
    SamePrefix(s.folder, s'.folder, s.listed, FileAt(s));
  }

  lemma CalmStarts(s: State, step: Step)
    requires Inv(s) && CalmOk(s) && Enabled(s, step) && Begins(step)
    ensures CalmOk(Do(s, step))
  {
    if !step.BeginIdle? {
      GoalDiffers(s, step);
    }
    CalmBeginTxn(s, TxnOf(s, step));
  }

  lemma CalmStep(s: State, step: Step)
    requires Inv(s) && CalmOk(s) && Enabled(s, step) && Calm(step)
    ensures CalmOk(Do(s, step))
  {
    if step.Arrive? {
      CalmArrive(s, step.at, step.file);
    } else if Begins(step) {
      CalmStarts(s, step);
    } else if step.OpenFile? {
      CalmOpen(s);
    } else if step.Commit? {
      CalmCommit(s);
    } else if step.Count? {
      CalmCount(s);
    } else {
      CalmOther(s, step);
    }
  }

  predicate IsOther(step: Step) {
    !(step.Arrive? || Begins(step) || step.OpenFile? || step.Commit? || step.Count?)
  }

  lemma OtherStaysAtFile(s: State, step: Step)
    requires CalmRun(s) && Enabled(s, step) && Calm(step) && IsOther(step)
    ensures CalmRun(Do(s, step)) && FileAt(Do(s, step)) == FileAt(s)
    ensures Do(s, step).counted == s.counted && Do(s, step).folder == s.folder && Do(s, step).memory == s.memory
  {
  }

  lemma OtherKeepsMemory(s: State, step: Step)
    requires CalmRun(s) && MemoryOk(s) && Enabled(s, step) && Calm(step) && IsOther(step)
    requires CalmRun(Do(s, step)) && FileAt(Do(s, step)) == FileAt(s)
    ensures MemoryOk(Do(s, step))
  {
  }

  lemma CalmOther(s: State, step: Step)
    requires CalmOk(s) && Enabled(s, step) && Calm(step) && IsOther(step)
    ensures CalmOk(Do(s, step))
  {
    OtherStaysAtFile(s, step);
    OtherKeepsMemory(s, step);
  }

  lemma {:induction false} CalmReached(s: State, steps: seq<Step>)
    requires Inv(s) && CalmOk(s) && Legal(s, steps) && forall i :: 0 <= i < |steps| ==> Calm(steps[i])
    ensures Inv(Exec(s, steps)) && CalmOk(Exec(s, steps))
    decreases |steps|
  {
    if steps != [] {
      CalmStep(s, steps[0]);
      StepKeeps(s, steps[0]);
      assert forall i :: 0 <= i < |steps| - 1 ==> steps[1..][i] == steps[i + 1];
      CalmReached(Do(s, steps[0]), steps[1..]);
    }
  }

  /** No file is in progress and no run owes the counters a file. */
  predicate BetweenFiles(s: State) {
    && s.db.pos.inProgress == None
    && (forall r :: 0 <= r < |s.runs| && s.runs[r].Working? ==> !s.runs[r].phase.Counting?)
  }

  /** Between files of a single crash-free run, with blocks, aborts, restarts and new files
      allowed, the delta is exactly the missed deletes less the repeated inserts; with neither,
      the detector reads zero. */
  lemma CalmRunHasNoHiddenDrift(s: State, steps: seq<Step>)
    requires Init(s) && |s.runs| == 1 && Legal(s, steps)
    requires forall i :: 0 <= i < |steps| ==> Calm(steps[i])
    requires BetweenFiles(Exec(s, steps))
    ensures
      var e := Exec(s, steps);
      && PosOk(e.ctx, e.folder, e.listed, e.db.pos)
      && var ops := Applied(e, e.db.pos);
      && Delta(e) == Misses(e.baseline, ops) - Hits(e.baseline, ops)
      && (Misses(e.baseline, ops) == Hits(e.baseline, ops) <==> Delta(e) == 0)
  {
    InitHolds(s);
    assert CalmOk(s) by { assert s.folder[..0] == []; }
    CalmReached(s, steps);
    DriftMeasures(s, steps);
    var e := Exec(s, steps);
    var d := DoneCount(e.folder, e.db.pos.lastDone);
    assert Applied(e, e.db.pos) == AllOps(e.ctx, e.folder[..d]);
    NetOfFiles(e.ctx, e.folder[..d]);
    EmptyFilesCountNothing(e.ctx, e.folder[..d]);
  }
}
