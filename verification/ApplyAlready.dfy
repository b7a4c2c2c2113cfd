/**
 What the fence's answer "already" says about who committed what: for the file-done step that this
 very step was committed, for a chunk that the same rows were, and this very chunk in every history
 only if it holds one operation.
 */
module ApplyAlready {
  import opened Util
  import opened ChangeRows
  import opened NetOps
  import opened ApplyProtocol
  import opened ApplySafety
  import opened ApplyTheorems
  import opened ApplyProgress

  /** Exactly this step is among the committed ones. */
  ghost predicate Made(log: seq<Move>, p: Pos, goal: Pos) { Move(p, goal) in log }

  // ----- every checkpoint there was is well-formed -----------------------------------------

  lemma StepEvolves(s: State, step: Step)
    requires Inv(s) && Enabled(s, step)
    ensures Evolves(s, Do(s, step))
  {
    if step.Arrive? {
      assert InsertAt(s.folder, step.at, step.file)[..s.listed] == s.folder[..s.listed];
    } else if step.List? {
      assert RunOk(s, s.runs[step.r]);
      ListMakesRun(s, step.r, step.k);
    } else if step.OpenFile? {
      OpenEvolves(s, step.r);
    } else if step.MarkEmpty? {
      MarkEmptyEvolves(s, step.r);
    } else if step.Commit? {
      assert RunOk(s, s.runs[step.r]);
      InstallKeepsTable(s, s.runs[step.r].txn.value);
    } else if step.OrphanCommit? {
      InstallKeepsTable(s, s.orphans[step.i]);
    } else {
      OtherIsQuiet(s, step);
    }
  }

  /** Nothing that a checkpoint stands for has moved. */
  ghost predicate Quiet(s: State, s': State) {
    && s'.ctx == s.ctx && s'.baseline == s.baseline && s'.folder == s.folder && s'.listed == s.listed
    && s'.db.pos == s.db.pos && s'.db.target == s.db.target && s'.db.ledger == s.db.ledger
    && s.db.version <= s'.db.version && (s'.db.version == s.db.version ==> s'.db.blocked == s.db.blocked)
  }

  lemma OtherIsQuiet(s: State, step: Step)
    requires Enabled(s, step) && !(step.Arrive? || step.List? || step.OpenFile? || step.MarkEmpty?)
    requires !(step.Commit? || step.OrphanCommit?)
    ensures Quiet(s, Do(s, step))
  {
  }

  ghost predicate HistoryOk(s: State) {
    forall n :: 0 <= n <= |s.log| ==> PosOk(s.ctx, s.folder, s.listed, AfterMoves(s.log, n))
  }

  lemma HistoryCarries(s: State, s': State)
    requires HistoryOk(s) && Evolves(s, s') && DbOk(s') && LogOk(s')
    requires s.log <= s'.log && |s'.log| <= |s.log| + 1
    ensures HistoryOk(s')
  {
    forall n | 0 <= n <= |s'.log| ensures PosOk(s'.ctx, s'.folder, s'.listed, AfterMoves(s'.log, n)) {
      if n <= |s.log| {
        assert AfterMoves(s'.log, n) == AfterMoves(s.log, n);
        PosStable(s, s', AfterMoves(s.log, n));
      }
    }
  }

  lemma HistoryOkKept(s: State, step: Step)
    requires Inv(s) && HistoryOk(s) && Enabled(s, step)
    ensures HistoryOk(Do(s, step))
  {
    StepKeeps(s, step);
    StepEvolves(s, step);
    LogStep(s, step);
    HistoryCarries(s, Do(s, step));
  }

  lemma LogStep(s: State, step: Step)
    requires Inv(s) && Enabled(s, step)
    ensures s.log <= Do(s, step).log && |Do(s, step).log| <= |s.log| + 1
  {
    OnlyCommitsMoveTheCheckpoint(s, step);
  }

  lemma {:induction false} AllReached(s: State, steps: seq<Step>)
    requires Inv(s) && ExpectsHistory(s) && HistoryOk(s) && Legal(s, steps)
    ensures var e := Exec(s, steps); Inv(e) && ExpectsHistory(e) && HistoryOk(e)
    decreases |steps|
  {
    if steps != [] {
      StepKeeps(s, steps[0]);
      HistoryKept(s, steps[0]);
      HistoryOkKept(s, steps[0]);
      AllReached(Do(s, steps[0]), steps[1..]);
    }
  }

  // ----- when "already" is exact -----------------------------------------------------------

  /** The checkpoint is at the end of its file in progress. */
  ghost predicate AtEnd(s: State, p: Pos, f: File) {
    var d := DoneCount(s.folder, p.lastDone);
    PosOk(s.ctx, s.folder, s.listed, p) && d < |s.folder| && s.folder[d] == f && p.offset == |Ops(s.ctx, f)|
  }

  /** Between the end of a file and its done step there is no other checkpoint. */
  lemma NothingBetween(s: State, p: Pos, q: Pos, f: File)
    requires Sorted(s.folder) && AtEnd(s, p, f) && PosOk(s.ctx, s.folder, s.listed, q)
    requires AtMost(p, q) && Less(q, Pos(None, 0, Some(f.name)))
    ensures q == p
  {
    if q.lastDone == p.lastDone {
      if q.lastDone.Some? {
        BeforeIsTotal(q.lastDone.value, q.lastDone.value);
      }
    } else {
      NoMarkBetween(s, p, q, f);
    }
  }

  lemma NoMarkBetween(s: State, p: Pos, q: Pos, f: File)
    requires Sorted(s.folder) && AtEnd(s, p, f) && PosOk(s.ctx, s.folder, s.listed, q)
    requires Less(p, q) && q.lastDone != p.lastDone
    ensures !Less(q, Pos(None, 0, Some(f.name)))
  {
    if Less(q, Pos(None, 0, Some(f.name))) {
      var d, dq := DoneCount(s.folder, p.lastDone), DoneCount(s.folder, q.lastDone);
      OrderOfNames(s, dq - 1, d);
      if p.lastDone.Some? {
        OrderOfNames(s, d - 1, dq - 1);
      }
      assert false;
    }
  }

  lemma OrderOfNames(s: State, i: nat, j: nat)
    requires Sorted(s.folder) && i < |s.folder| && j < |s.folder| && Before(s.folder[i].name, s.folder[j].name)
    ensures i < j
  {
    BeforeIsTotal(s.folder[i].name, s.folder[j].name);
  }

  /** Where the last committed move started, seen from a run that finds its goal committed. */
  lemma LastMoveIsLater(e: State, p: Pos)
    requires LogOk(e) && Visited(e, p) && p != e.db.pos
    ensures e.log != [] && e.log[|e.log| - 1].after == e.db.pos && AtMost(p, e.log[|e.log| - 1].before)
  {
    var n :| 0 <= n <= |e.log| && AfterMoves(e.log, n) == p;
    var last := |e.log| - 1;
    assert LinkOk(e.log, n) && LinkOk(e.log, last);
    if n > 0 && n - 1 < last {
      LogIncreases(e.log, n - 1, last);
    } else if n < last {
      LogIncreases(e.log, n, last);
      LogIncreases(e.log, n, last - 1);
    }
  }

  /** A move that ends at the present checkpoint is the last one. */
  lemma OnlyTheLast(e: State, m: Move)
    requires LogOk(e) && m in e.log && m.after == e.db.pos
    ensures e.log[|e.log| - 1] == m
  {
    var i :| 0 <= i < |e.log| && e.log[i] == m;
    if i < |e.log| - 1 {
      LogIncreases(e.log, i, |e.log| - 1);
      LessIsStrict(m.after, e.log[|e.log| - 1].after);
    }
  }

  /** Exactly this step is committed just when the last committed move started where the run is. */
  ghost predicate Exact(e: State, step: Step)
    requires Enabled(e, step) && (step.BeginChunk? || step.BeginDone?)
  {
    var p, goal := e.runs[step.r].pos, TargetOf(e, step);
    && e.log != []
    && (Made(e.log, p, goal) <==> e.log[|e.log| - 1].before == p)
    && (step.BeginDone? ==> Made(e.log, p, goal))
  }

  /** The file-done step's answer "already" means, in every history, that exactly this step was
      committed. */
  lemma DoneAnswerIsExact(s: State, steps: seq<Step>, r: nat)
    requires Init(s) && Legal(s, steps) && Enabled(Exec(s, steps), BeginDone(r))
    requires var e := Exec(s, steps);
             CheckPosition(e.db, e.runs[r].pos, Some(TargetOf(e, BeginDone(r)))) == Already
    ensures var e := Exec(s, steps); Made(e.log, e.runs[r].pos, TargetOf(e, BeginDone(r)))
  {
    InitHolds(s);
    AllReached(s, steps);
    ExactHere(Exec(s, steps), BeginDone(r));
  }

  lemma ExactHere(e: State, step: Step)
    requires Inv(e) && ExpectsHistory(e) && HistoryOk(e)
    requires Enabled(e, step) && (step.BeginChunk? || step.BeginDone?)
    requires CheckPosition(e.db, e.runs[step.r].pos, Some(TargetOf(e, step))) == Already
    ensures Exact(e, step)
  {
    var p, goal := e.runs[step.r].pos, TargetOf(e, step);
    GoalDiffers(e, step);
    LastMoveIsLater(e, p);
    if Made(e.log, p, goal) {
      OnlyTheLast(e, Move(p, goal));
    }
    if step.BeginDone? {
      DoneFollows(e, step.r);
    }
  }

  lemma DoneFollows(e: State, r: nat)
    requires Inv(e) && HistoryOk(e) && Enabled(e, BeginDone(r)) && e.log != []
    requires e.db.pos == TargetOf(e, BeginDone(r)) && AtMost(e.runs[r].pos, e.log[|e.log| - 1].before)
    ensures e.log[|e.log| - 1].before == e.runs[r].pos
  {
    assert RunOk(e, e.runs[r]);
    assert LinkOk(e.log, |e.log| - 1);
    var q := AfterMoves(e.log, |e.log| - 1);
    NothingBetween(e, e.runs[r].pos, q, e.runs[r].pending[0]);
  }

  // ----- a chunk: exact if and only if it holds one operation ------------------------------

  /** A run inside file `f` is told that its chunk of the operations from `k` to `upto` is already
      committed. */
  ghost predicate Answered(e: State, f: File, r: nat, k: nat, upto: nat) {
    && Enabled(e, BeginChunk(r, upto)) && e.runs[r].pending[0] == f && e.runs[r].phase.offset == k
    && CheckPosition(e.db, e.runs[r].pos, Some(TargetOf(e, BeginChunk(r, upto)))) == Already
  }

  ghost predicate MadeByChunk(e: State, r: nat, upto: nat)
    requires Enabled(e, BeginChunk(r, upto))
  {
    Made(e.log, e.runs[r].pos, TargetOf(e, BeginChunk(r, upto)))
  }

  /** There is no checkpoint between two neighbouring offsets of a file. */
  lemma NeighbouringOffsets(s: State, p: Pos, q: Pos, goal: Pos)
    requires PosOk(s.ctx, s.folder, s.listed, p) && PosOk(s.ctx, s.folder, s.listed, q)
    requires AtMost(p, q) && Less(q, goal) && goal.lastDone == p.lastDone && goal.offset == p.offset + 1
    ensures q == p
  {
    if p.lastDone.Some? && q.lastDone.Some? && p.lastDone != q.lastDone {
      BeforeIsTotal(p.lastDone.value, q.lastDone.value);
    }
    if p.lastDone.Some? {
      BeforeIsTotal(p.lastDone.value, p.lastDone.value);
    }
  }

  lemma OneOperationHere(e: State, f: File, r: nat, k: nat)
    requires Inv(e) && ExpectsHistory(e) && HistoryOk(e) && Answered(e, f, r, k, k + 1)
    ensures MadeByChunk(e, r, k + 1)
  {
    var p := e.runs[r].pos;
    assert RunOk(e, e.runs[r]);
    ExactHere(e, BeginChunk(r, k + 1));
    GoalDiffers(e, BeginChunk(r, k + 1));
    LastMoveIsLater(e, p);
    assert LinkOk(e.log, |e.log| - 1);
    NeighbouringOffsets(e, p, AfterMoves(e.log, |e.log| - 1), e.db.pos);
  }

  /** One operation: exact for any file, run and history. */
  lemma OneOperationIsExact(s: State, e: State, f: File, r: nat, k: nat)
    requires Init(s) && Reachable(s, e) && Answered(e, f, r, k, k + 1)
    ensures MadeByChunk(e, r, k + 1)
  {
    var steps :| Legal(s, steps) && Exec(s, steps) == e;
    InitHolds(s);
    AllReached(s, steps);
    OneOperationHere(e, f, r, k);
  }

  // ----- a run that commits single operations ----------------------------------------------

  /** The chunks of a run whose fixed chunk size is one. */
  const SINGLE: Cut := (f: File, k: nat) => k + 1

  /** The high-water mark when the first `i` files are done. */
  function MarkAt(folder: seq<File>, i: nat): Option<Name>
    requires i <= |folder|
  {
    if i == 0 then None else Some(folder[i - 1].name)
  }

  /** The table is at operation `k` of the `i`-th file. */
  predicate AtFile(s: State, i: nat, k: nat) {
    && i < |s.folder| && Sorted(s.folder) && Readable(s.ctx, s.folder[i]) && !s.db.blocked
    && s.db.pos == Pos(if k == 0 then None else Some(s.folder[i].name), k, MarkAt(s.folder, i))
  }

  predicate InsideAt(s: State, i: nat, r: nat) {
    i < |s.folder| && r < |s.runs| && s.runs[r] == Working(s.db.pos, [s.folder[i]], Open(s.db.pos.offset), None)
  }

  lemma OnePending(folder: seq<File>, i: nat)
    requires i < |folder| && Sorted(folder)
    ensures Pending(folder[..i + 1], MarkAt(folder, i)) == [folder[i]]
  {
    PendingIsSuffix(folder[..i + 1], MarkAt(folder, i), i);
    assert folder[..i + 1][i..] == [folder[i]];
  }

  /** The state with the run inside the file. */
  function Entered(s: State, i: nat, r: nat): State
    requires i < |s.folder| && r < |s.runs|
  {
    var f := s.folder[i];
    s.(runs := s.runs[r := Working(s.db.pos, [f], Open(s.db.pos.offset), None)],
       listed := Max(s.listed, i + 1),
       memory := if f.rows == [] then s.memory else s.memory[r := f],
       db := s.db.(ledger := if f.rows == [] || f.name in s.db.ledger then s.db.ledger
                             else s.db.ledger[f.name := LedgerRow(false, false)]))
  }

  lemma ListsOne(s: State, i: nat, r: nat) returns (e: State)
    requires r < |s.runs| && s.runs[r] == Reading(s.db.pos) && i < |s.folder| && Sorted(s.folder)
    requires s.db.pos.lastDone == MarkAt(s.folder, i)
    ensures Enabled(s, List(r, i + 1)) && e == Do(s, List(r, i + 1))
    ensures e == s.(listed := Max(s.listed, i + 1), runs := s.runs[r := Working(s.db.pos, [s.folder[i]], Closed, None)])
  {
    OnePending(s.folder, i);
    e := Do(s, List(r, i + 1));
  }

  lemma OpensOne(s: State, i: nat, k: nat, r: nat) returns (e: State)
    requires AtFile(s, i, k) && r < |s.runs| && s.runs[r] == Working(s.db.pos, [s.folder[i]], Closed, None)
    requires s.listed >= i + 1
    ensures Enabled(s, OpenFile(r)) && e == Do(s, OpenFile(r)) == Entered(s, i, r)
  {
    e := Do(s, OpenFile(r));
  }

  /** A run starts, lists the folder up to the file at hand, and opens it where the table is. */
  lemma Enters(s: State, i: nat, k: nat, r: nat) returns (e: State)
    requires AtFile(s, i, k) && r < |s.runs| && s.runs[r].Down?
    ensures e == Entered(s, i, r) && Reaches(s, e, SINGLE) && InsideAt(e, i, r) && AtFile(e, i, k)
  {
    var s1 := Do(s, ReadState(r));
    var s2 := ListsOne(s1, i, r);
    e := OpensOne(s2, i, k, r);
    ReachesSelf(e, SINGLE);
    ReachesThrough(s2, OpenFile(r), e, SINGLE);
    ReachesThrough(s1, List(r, i + 1), e, SINGLE);
    ReachesThrough(s, ReadState(r), e, SINGLE);
  }

  /** What committing operations changes: the run, the table and its checkpoint, and the log. */
  ghost predicate OnlyMoves(s: State, e: State, r: nat) {
    && e.ctx == s.ctx && e.folder == s.folder && e.memory == s.memory && e.counted == s.counted
    && |e.runs| == |s.runs| && (forall q :: 0 <= q < |s.runs| && q != r ==> e.runs[q] == s.runs[q])
  }

  lemma BeginsOne(s: State, i: nat, k: nat, r: nat) returns (b: State)
    requires AtFile(s, i, k) && InsideAt(s, i, r) && k < |Ops(s.ctx, s.folder[i])|
    ensures Enabled(s, BeginChunk(r, k + 1)) && b == Do(s, BeginChunk(r, k + 1))
    ensures var goal := Pos(Some(s.folder[i].name), k + 1, s.db.pos.lastDone);
            b == s.(runs := s.runs[r := s.runs[r].(txn := Some(Txn(s.db, goal, ChunkWork(s.folder[i], k + 1))))])
  {
    b := Do(s, BeginChunk(r, k + 1));
  }

  lemma AppliesOne(s: State, i: nat, k: nat, r: nat) returns (e: State)
    requires AtFile(s, i, k) && InsideAt(s, i, r) && k < |Ops(s.ctx, s.folder[i])|
    ensures Reaches(s, e, SINGLE) && AtFile(e, i, k + 1) && InsideAt(e, i, r) && OnlyMoves(s, e, r)
    ensures e.log == s.log + [Move(s.db.pos, e.db.pos)]
  {
    var b := BeginsOne(s, i, k, r);
    e := Do(b, Commit(r));
    ReachesSelf(e, SINGLE);
    ReachesThrough(b, Commit(r), e, SINGLE);
    ReachesThrough(s, BeginChunk(r, k + 1), e, SINGLE);
  }

  lemma {:induction false} AppliesTo(s: State, i: nat, k: nat, upto: nat, r: nat) returns (e: State)
    requires AtFile(s, i, k) && InsideAt(s, i, r) && k <= upto <= |Ops(s.ctx, s.folder[i])|
    ensures Reaches(s, e, SINGLE) && AtFile(e, i, upto) && InsideAt(e, i, r) && OnlyMoves(s, e, r)
    ensures k < upto ==> e.log != [] && e.log[|e.log| - 1].before.offset == upto - 1
    decreases upto - k
  {
    if k == upto {
      e := s;
      ReachesSelf(s, SINGLE);
    } else {
      var m := AppliesTo(s, i, k, upto - 1, r);
      e := AppliesOne(m, i, upto - 1, r);
      ReachesTwice(s, m, e, SINGLE);
    }
  }

  // ----- finishing files -------------------------------------------------------------------

  /** The run marks its file done. */
  lemma MarksItDone(s: State, i: nat, r: nat) returns (e: State)
    requires i < |s.folder| && InsideAt(s, i, r) && AtFile(s, i, |Ops(s.ctx, s.folder[i])|)
    ensures Reaches(s, e, SINGLE) && OnlyMoves(s, e, r)
    ensures e.db.pos == Pos(None, 0, Some(s.folder[i].name)) && !e.db.blocked
    ensures r < |e.runs| && e.runs[r] == Working(e.db.pos, [s.folder[i]], Counting, None)
  {
    if i > 0 {
      NamesDiffer(s, i - 1, i);
    }
    var b := Do(s, BeginDone(r));
    e := Do(b, Commit(r));
    ReachesSelf(e, SINGLE);
    ReachesThrough(b, Commit(r), e, SINGLE);
    ReachesThrough(s, BeginDone(r), e, SINGLE);
  }

  /** It adds the counts it remembers, and the file is behind it. */
  lemma Counts(s: State, f: File, r: nat) returns (e: State)
    requires r < |s.runs| && s.runs[r] == Working(s.db.pos, [f], Counting, None)
    ensures Reaches(s, e, SINGLE) && e.runs == s.runs[r := Working(s.db.pos, [], Closed, None)]
    ensures e.memory == s.memory - {r} && e.db.pos == s.db.pos && e.db.blocked == s.db.blocked
    ensures e.counted == if r in s.memory then s.counted + [s.memory[r]] else s.counted
    ensures e.ctx == s.ctx && e.folder == s.folder
  {
    e := Do(s, Count(r, true));
    assert [f][1..] == [];
    ReachesSelf(e, SINGLE);
    ReachesThrough(s, Count(r, true), e, SINGLE);
  }

  lemma Stops(s: State, r: nat) returns (e: State)
    requires r < |s.runs|
    ensures Reaches(s, e, SINGLE) && e == s.(runs := s.runs[r := Down], memory := e.memory)
  {
    e := Do(s, Crash(r));
    ReachesSelf(e, SINGLE);
    ReachesThrough(s, Crash(r), e, SINGLE);
  }

  /** The table is at the start of the `i`-th file, and no run is up. */
  ghost predicate Waiting(s: State, e: State, i: nat) {
    && e.ctx == s.ctx && e.folder == s.folder && i <= |s.folder| && |e.runs| == |s.runs|
    && (forall q :: 0 <= q < |e.runs| ==> e.runs[q].Down?)
    && e.db.pos == Pos(None, 0, MarkAt(s.folder, i)) && !e.db.blocked
  }

  /** The second run applies the first `i` files, operation by operation. */
  lemma {:induction false} FinishesFirst(s: State, i: nat) returns (e: State)
    requires Init(s) && |s.runs| >= 2 && !s.db.blocked && i <= |s.folder|
    requires forall j :: 0 <= j < i ==> Readable(s.ctx, s.folder[j])
    ensures Reaches(s, e, SINGLE) && Waiting(s, e, i)
  {
    if i == 0 {
      e := s;
      ReachesSelf(s, SINGLE);
    } else {
      var w := FinishesFirst(s, i - 1);
      e := FinishesOne(s, w, i - 1);
      ReachesTwice(s, w, e, SINGLE);
    }
  }

  lemma AppliesAll(w: State, i: nat, r: nat) returns (e: State)
    requires AtFile(w, i, 0) && r < |w.runs| && w.runs[r].Down?
    ensures Reaches(w, e, SINGLE) && i < |e.folder| && InsideAt(e, i, r) && AtFile(e, i, |Ops(w.ctx, w.folder[i])|)
    ensures e.ctx == w.ctx && e.folder == w.folder && |e.runs| == |w.runs|
    ensures forall q :: 0 <= q < |w.runs| && q != r ==> e.runs[q] == w.runs[q]
  {
    var a := Enters(w, i, 0, r);
    e := AppliesTo(a, i, 0, |Ops(w.ctx, w.folder[i])|, r);
    ReachesTwice(w, a, e, SINGLE);
  }

  lemma FinishesOne(s: State, w: State, i: nat) returns (e: State)
    requires Waiting(s, w, i) && i < |s.folder| && Sorted(s.folder) && Readable(s.ctx, s.folder[i]) && |w.runs| >= 2
    ensures Reaches(w, e, SINGLE) && Waiting(s, e, i + 1)
  {
    var b := AppliesAll(w, i, 1);
    var c := MarksItDone(b, i, 1);
    var d := Counts(c, s.folder[i], 1);
    e := Stops(d, 1);
    ReachesTwice(c, d, e, SINGLE);
    ReachesTwice(b, c, e, SINGLE);
    ReachesTwice(w, b, e, SINGLE);
  }

  // ----- a chunk that another run committed in pieces --------------------------------------

  /** Both runs are inside the `i`-th file, at operation `k`. */
  lemma BothGetTo(s: State, i: nat, k: nat) returns (e: State)
    requires Init(s) && |s.runs| >= 2 && !s.db.blocked && i < |s.folder|
    requires (forall j :: 0 <= j <= i ==> Readable(s.ctx, s.folder[j])) && k <= |Ops(s.ctx, s.folder[i])|
    ensures Reaches(s, e, SINGLE) && AtFile(e, i, k) && InsideAt(e, i, 0) && InsideAt(e, i, 1)
    ensures e.ctx == s.ctx && e.folder == s.folder
  {
    var w := FinishesFirst(s, i);
    var a := Enters(w, i, 0, 1);
    var b := AppliesTo(a, i, 0, k, 1);
    e := Enters(b, i, k, 0);
    ReachesTwice(a, b, e, SINGLE);
    ReachesTwice(w, a, e, SINGLE);
    ReachesTwice(s, w, e, SINGLE);
  }

  /** The second run goes on to `upto`, one operation a chunk; the first then asks for all of them. */
  lemma InPieces(s: State, i: nat, k: nat, upto: nat) returns (e: State)
    requires AtFile(s, i, k) && InsideAt(s, i, 0) && InsideAt(s, i, 1)
    requires k + 2 <= upto <= |Ops(s.ctx, s.folder[i])| && upto - k <= 2997
    ensures Reaches(s, e, SINGLE) && Answered(e, s.folder[i], 0, k, upto)
    ensures e.log != [] && e.log[|e.log| - 1].before.offset == upto - 1
  {
    e := AppliesTo(s, i, k, upto, 1);
  }

  lemma NotMadeHere(e: State, f: File, k: nat, upto: nat)
    requires Inv(e) && Answered(e, f, 0, k, upto) && k + 2 <= upto
    requires e.log != [] && e.log[|e.log| - 1].before.offset == upto - 1
    ensures !MadeByChunk(e, 0, upto)
  {
    assert RunOk(e, e.runs[0]) && e.runs[0].pos.offset == k;
    if MadeByChunk(e, 0, upto) {
      OnlyTheLast(e, Move(e.runs[0].pos, TargetOf(e, BeginChunk(0, upto))));
    }
  }

  lemma NotMade(s: State, e: State, f: File, k: nat, upto: nat)
    requires Init(s) && Reachable(s, e) && Answered(e, f, 0, k, upto) && k + 2 <= upto
    requires e.log != [] && e.log[|e.log| - 1].before.offset == upto - 1
    ensures !MadeByChunk(e, 0, upto)
  {
    var steps :| Legal(s, steps) && Exec(s, steps) == e;
    InitHolds(s);
    Reached(s, steps);
    NotMadeHere(e, f, k, upto);
  }

  /** A chunk's answer "already" means, in every history, that exactly this chunk was committed if
      and only if the chunk holds one operation.  Runs may have different chunk settings: a longer
      chunk is refuted by a run whose fixed chunk size is one and that has committed its operations
      one by one. */
  lemma ChunkAnswerIsExactIffOneOperation(s: State, i: nat, k: nat, upto: nat)
    requires Init(s) && |s.runs| >= 2 && !s.db.blocked && i < |s.folder|
    requires forall j :: 0 <= j <= i ==> Readable(s.ctx, s.folder[j])
    requires k < upto <= |Ops(s.ctx, s.folder[i])| && upto - k <= 2997
    ensures (forall e, r :: Reachable(s, e) && Answered(e, s.folder[i], r, k, upto) ==> MadeByChunk(e, r, upto))
            <==> upto == k + 1
  {
    var f := s.folder[i];
    if upto == k + 1 {
      forall e, r | Reachable(s, e) && Answered(e, f, r, k, upto) ensures MadeByChunk(e, r, upto) {
        OneOperationIsExact(s, e, f, r, k);
      }
    } else {
      var m := BothGetTo(s, i, k);
      var e := InPieces(m, i, k, upto);
      ReachesTwice(s, m, e, SINGLE);
      ReachesIsReachable(s, e, SINGLE);
      NotMade(s, e, f, k, upto);
    }
  }

  // ----- runs that cut alike ---------------------------------------------------------------

  /** A committed move is a chunk as the cut says, or a file's done step. */
  ghost predicate CutMove(s: State, m: Move, cut: Cut) {
    && PosOk(s.ctx, s.folder, s.listed, m.before)
    && var d := DoneCount(s.folder, m.before.lastDone);
    && d < s.listed
    && var f := s.folder[d];
    || m.after == Pos(Some(f.name), cut(f, m.before.offset), m.before.lastDone)
    || m.before.offset == |Ops(s.ctx, f)|
  }

  predicate CutTxn(t: Txn, cut: Cut) {
    t.work.ChunkWork? ==> t.work.upto == cut(t.work.file, t.snap.pos.offset)
  }

  predicate CutRun(run: Run, cut: Cut) { run.Working? && run.txn.Some? ==> CutTxn(run.txn.value, cut) }

  ghost predicate CutTxns(s: State, cut: Cut) {
    && (forall r :: 0 <= r < |s.runs| ==> CutRun(s.runs[r], cut))
    && (forall j :: 0 <= j < |s.orphans| ==> CutTxn(s.orphans[j], cut))
  }

  ghost predicate CutLog(s: State, cut: Cut) { forall j :: 0 <= j < |s.log| ==> CutMove(s, s.log[j], cut) }

  lemma CutMoveStable(s: State, s': State, m: Move, cut: Cut)
    requires Evolves(s, s') && CutMove(s, m, cut)
    ensures CutMove(s', m, cut)
  {
    PosStable(s, s', m.before);
    FolderStable(s, s');
  }

  lemma InstallCuts(s: State, t: Txn, cut: Cut)
    requires Inv(s) && TxnOk(s, t) && CanCommit(s.db, t) && CutTxn(t, cut) && CutLog(s, cut)
    ensures CutLog(Installed(s, t), cut)
  {
    var s' := Installed(s, t);
    InstallKeepsTable(s, t);
    forall j | 0 <= j < |s'.log| ensures CutMove(s', s'.log[j], cut) {
      if j < |s.log| {
        CutMoveStable(s, s', s.log[j], cut);
      } else {
        assert CutMove(s, Move(t.snap.pos, t.goal), cut);
        CutMoveStable(s, s', s'.log[j], cut);
      }
    }
  }

  lemma CutLogStable(s: State, s': State, cut: Cut)
    requires Evolves(s, s') && s'.log == s.log && CutLog(s, cut)
    ensures CutLog(s', cut)
  {
    forall j | 0 <= j < |s'.log| ensures CutMove(s', s'.log[j], cut) {
      CutMoveStable(s, s', s.log[j], cut);
    }
  }

  lemma CutLogSameButRuns(s: State, s': State, cut: Cut)
    requires CutLog(s, cut) && s' == s.(runs := s'.runs)
    ensures CutLog(s', cut)
  {
    forall j | 0 <= j < |s'.log| ensures CutMove(s', s'.log[j], cut) {
      assert CutMove(s, s.log[j], cut);
    }
  }

  lemma CommitCuts(s: State, r: nat, cut: Cut)
    requires Inv(s) && CutTxns(s, cut) && CutLog(s, cut) && Enabled(s, Commit(r))
    ensures CutLog(Do(s, Commit(r)), cut)
  {
    var t := s.runs[r].txn.value;
    assert RunOk(s, s.runs[r]) && CutRun(s.runs[r], cut);
    InstallCuts(s, t, cut);
    CutLogSameButRuns(Installed(s, t), Do(s, Commit(r)), cut);
  }

  lemma CutLogKept(s: State, step: Step, cut: Cut)
    requires Inv(s) && CutTxns(s, cut) && CutLog(s, cut) && Enabled(s, step)
    ensures CutLog(Do(s, step), cut)
  {
    if step.Commit? {
      CommitCuts(s, step.r, cut);
    } else if step.OrphanCommit? {
      InstallCuts(s, s.orphans[step.i], cut);
    } else {
      StepEvolves(s, step);
      OthersDoNotMove(s, step);
      CutLogStable(s, Do(s, step), cut);
    }
  }

  lemma BeginCuts(s: State, r: nat, t: Txn, q: nat, cut: Cut)
    requires WorkingAt(s, r) && q < |s.runs| && CutRun(s.runs[q], cut)
    requires s.db.pos == s.runs[r].pos ==> CutTxn(t, cut)
    ensures q < |Begin(s, r, t).runs| && CutRun(Begin(s, r, t).runs[q], cut)
  {
  }

  lemma OtherCuts(s: State, step: Step, q: nat, cut: Cut)
    requires Enabled(s, step) && !Begins(step)
    requires q < |s.runs| && CutRun(s.runs[q], cut)
    ensures q < |Do(s, step).runs| && CutRun(Do(s, step).runs[q], cut)
  {
  }

  lemma CutRunKept(s: State, step: Step, q: nat, cut: Cut)
    requires Inv(s) && Enabled(s, step) && KeepsCut(s, step, cut) && q < |s.runs| && CutRun(s.runs[q], cut)
    ensures q < |Do(s, step).runs| && CutRun(Do(s, step).runs[q], cut)
  {
    if Begins(step) {
      assert RunOk(s, s.runs[step.r]);
      BeginCuts(s, step.r, TxnOf(s, step), q, cut);
    } else {
      OtherCuts(s, step, q, cut);
    }
  }

  lemma StepOrphans(s: State, step: Step)
    requires Enabled(s, step)
    ensures |Do(s, step).runs| == |s.runs|
    ensures Do(s, step).orphans == if step.LoseAck? then s.orphans + [s.runs[step.r].txn.value] else s.orphans
  {
  }

  lemma CutTxnsKept(s: State, step: Step, cut: Cut)
    requires Inv(s) && CutTxns(s, cut) && Enabled(s, step) && KeepsCut(s, step, cut)
    ensures CutTxns(Do(s, step), cut)
  {
    var s' := Do(s, step);
    StepOrphans(s, step);
    forall q | 0 <= q < |s'.runs| ensures CutRun(s'.runs[q], cut) {
      CutRunKept(s, step, q, cut);
    }
    if step.LoseAck? {
      assert CutRun(s.runs[step.r], cut);
    }
  }

  lemma {:induction false} CutsReached(s: State, steps: seq<Step>, cut: Cut)
    requires Inv(s) && ExpectsHistory(s) && CutTxns(s, cut) && CutLog(s, cut) && Legal(s, steps)
    requires Follows(s, steps, cut)
    ensures var e := Exec(s, steps); Inv(e) && ExpectsHistory(e) && CutLog(e, cut)
    decreases |steps|
  {
    if steps != [] {
      StepKeeps(s, steps[0]);
      HistoryKept(s, steps[0]);
      CutTxnsKept(s, steps[0], cut);
      CutLogKept(s, steps[0], cut);
      CutsReached(Do(s, steps[0]), steps[1..], cut);
    }
  }

  /** When all runs cut a file alike, the answer is exact for chunks of any length: packing is
      deterministic, so this is the case of equal settings and no timeout or slow chunk. */
  lemma SameCutsAreExact(s: State, steps: seq<Step>, cut: Cut, f: File, r: nat, k: nat)
    requires Init(s) && Legal(s, steps) && Follows(s, steps, cut)
    requires Answered(Exec(s, steps), f, r, k, cut(f, k))
    ensures MadeByChunk(Exec(s, steps), r, cut(f, k))
  {
    InitHolds(s);
    CutsReached(s, steps, cut);
    ExactByCut(Exec(s, steps), cut, f, r, k);
  }

  lemma ExactByCut(e: State, cut: Cut, f: File, r: nat, k: nat)
    requires Inv(e) && ExpectsHistory(e) && CutLog(e, cut) && Answered(e, f, r, k, cut(f, k))
    ensures MadeByChunk(e, r, cut(f, k))
  {
    var p := e.runs[r].pos;
    assert RunOk(e, e.runs[r]);
    GoalDiffers(e, BeginChunk(r, cut(f, k)));
    MovesLeadToCurrent(e, p);
    var n :| 0 <= n < |e.log| && e.log[n].before == p;
    assert CutMove(e, e.log[n], cut);
  }
}
