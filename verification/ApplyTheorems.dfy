/**
 What the apply engine guarantees over whole runs: any number of concurrent runs, crashes, lost
 acknowledgements, operator blocks and new files, in any order.
 */
module ApplyTheorems {
  import opened Util
  import opened ChangeRows
  import opened NetOps
  import opened ApplyProtocol
  import opened ApplySafety

  predicate Legal(s: State, steps: seq<Step>)
    decreases |steps|
  {
    steps == [] || (Enabled(s, steps[0]) && Legal(Do(s, steps[0]), steps[1..]))
  }

  function Exec(s: State, steps: seq<Step>): State
    requires Legal(s, steps)
    decreases |steps|
  {
    if steps == [] then s else Exec(Do(s, steps[0]), steps[1..])
  }

  /** Where a chunk that starts at an offset of a file ends. */
  type Cut = (File, nat) -> nat

  /** The step, if it sends a chunk, sends the one the cut says. */
  predicate KeepsCut(s: State, step: Step, cut: Cut)
    requires Enabled(s, step)
  {
    step.BeginChunk? ==> step.upto == cut(s.runs[step.r].pending[0], s.runs[step.r].phase.offset)
  }

  predicate Follows(s: State, steps: seq<Step>, cut: Cut)
    requires Legal(s, steps)
    decreases |steps|
  {
    steps == [] || (KeepsCut(s, steps[0], cut) && Follows(Do(s, steps[0]), steps[1..], cut))
  }

  lemma {:induction false} Reached(s: State, steps: seq<Step>)
    requires Inv(s) && Legal(s, steps)
    ensures Inv(Exec(s, steps))
    decreases |steps|
  {
    if steps != [] {
      StepKeeps(s, steps[0]);
      Reached(Do(s, steps[0]), steps[1..]);
    }
  }

  /** Nothing missed, repeated or reordered: in every reachable state the target table is the
      full-load table with every file up to `last_done_file` applied row by row in file order,
      then the first `last_offset` net operations of the file in progress. */
  lemma TargetIsExactlyTheClaim(s: State, steps: seq<Step>)
    requires Init(s) && Legal(s, steps)
    ensures
      var e := Exec(s, steps);
      var d := DoneCount(e.folder, e.db.pos.lastDone);
      && (forall i :: 0 <= i < |e.folder| ==>
            (i < d <==> e.db.pos.lastDone.Some? && UpTo(e.folder[i].name, e.db.pos.lastDone.value)))
      && (forall i :: 0 <= i < d ==> Readable(e.ctx, e.folder[i]))
      && var done := FullTable(e.ctx, e.baseline, e.folder[..d]);
      && (e.db.pos.inProgress == None ==> e.db.target == done)
      && (e.db.pos.inProgress.Some? ==>
            && d < |e.folder| && e.folder[d].name == e.db.pos.inProgress.value
            && e.db.pos.offset <= |Ops(e.ctx, e.folder[d])|
            && e.db.target == ApplyOps(done, Ops(e.ctx, e.folder[d])[..e.db.pos.offset]))
  {
    InitHolds(s);
    Reached(s, steps);
    var e := Exec(s, steps);
    assert PosOk(e.ctx, e.folder, e.listed, e.db.pos);
    DoneIsPrefix(e.folder, e.db.pos.lastDone, DoneCount(e.folder, e.db.pos.lastDone));
  }

  lemma DoneIsPrefix(folder: seq<File>, mark: Option<Name>, d: nat)
    requires Sorted(folder) && d <= |folder|
    requires mark == None ==> d == 0
    requires mark.Some? ==> d > 0 && folder[d - 1].name == mark.value
    ensures forall i :: 0 <= i < |folder| ==> (i < d <==> mark.Some? && UpTo(folder[i].name, mark.value))
  {
    forall i | 0 <= i < |folder| ensures i < d <==> mark.Some? && UpTo(folder[i].name, mark.value) {
      if mark.Some? {
        BeforeIsTotal(folder[i].name, folder[d - 1].name);
        assert i < d - 1 ==> Before(folder[i].name, folder[d - 1].name);
        assert i > d - 1 ==> Before(folder[d - 1].name, folder[i].name);
      }
    }
  }

  // ----- the fence -------------------------------------------------------------------------

  /** The checkpoint changes only by a logged move, and a logged move strictly advances it; no
      transaction that passed the fence commits while the table is blocked. */
  lemma OnlyCommitsMoveTheCheckpoint(s: State, step: Step)
    requires Inv(s) && Enabled(s, step)
    ensures
      var s' := Do(s, step);
      || (s'.log == s.log && s'.db.pos == s.db.pos && s'.db.target == s.db.target)
      || (s'.log == s.log + [Move(s.db.pos, s'.db.pos)] && Less(s.db.pos, s'.db.pos))
    ensures step.Commit? || step.OrphanCommit? ==> !s.db.blocked
    ensures AtMost(s.db.pos, Do(s, step).db.pos) && s.log <= Do(s, step).log
  {
    if step.Commit? {
      assert RunOk(s, s.runs[step.r]);
      InstallMoves(s, s.runs[step.r].txn.value);
    } else if step.OrphanCommit? {
      InstallMoves(s, s.orphans[step.i]);
    } else {
      OthersDoNotMove(s, step);
    }
  }

  lemma InstallMoves(s: State, t: Txn)
    requires Inv(s) && TxnOk(s, t) && CanCommit(s.db, t)
    ensures var s' := Installed(s, t);
            && AtMost(s.db.pos, s'.db.pos) && !s.db.blocked
            && ((s'.log == s.log && s'.db.pos == s.db.pos && s'.db.target == s.db.target)
                || (s'.log == s.log + [Move(s.db.pos, s'.db.pos)] && Less(s.db.pos, s'.db.pos)))
  {
    GoalIsNext(s, t.snap.pos, t.goal, t.work);
    InstallKeepsTable(s, t);
  }

  lemma OthersDoNotMove(s: State, step: Step)
    requires Enabled(s, step) && !step.Commit? && !step.OrphanCommit?
    ensures var s' := Do(s, step); s'.log == s.log && s'.db.pos == s.db.pos && s'.db.target == s.db.target
  {
  }

  lemma {:induction false} LogIncreases(log: seq<Move>, i: nat, j: nat)
    requires i <= j < |log|
    requires forall k :: 0 <= k < |log| ==> LinkOk(log, k)
    ensures Less(log[i].before, log[j].after)
    ensures i < j ==> Less(log[i].after, log[j].after) && AtMost(log[i].after, log[j].before)
    decreases j - i
  {
    assert LinkOk(log, i) && LinkOk(log, j);
    if i < j {
      LogIncreases(log, i, j - 1);
      assert log[j].before == log[j - 1].after;
      LessIsTransitive(log[i].before, log[j].before, log[j].after);
      if i < j - 1 {
        LessIsTransitive(log[i].after, log[j].before, log[j].after);
      }
    }
  }

  /** At most once, and no return to an earlier checkpoint: over any run no two committed moves
      start at the same checkpoint or end at the same checkpoint. */
  lemma EachMoveCommitsOnce(s: State, steps: seq<Step>)
    requires Init(s) && Legal(s, steps)
    ensures
      var log := Exec(s, steps).log;
      forall i, j :: 0 <= i < j < |log| ==>
        Less(log[i].after, log[j].after) && log[i].after != log[j].after && log[i].before != log[j].before
  {
    InitHolds(s);
    Reached(s, steps);
    var log := Exec(s, steps).log;
    forall i, j | 0 <= i < j < |log|
      ensures Less(log[i].after, log[j].after) && log[i].after != log[j].after && log[i].before != log[j].before
    {
      LogIncreases(log, i, j);
      LessIsStrict(log[i].after, log[j].after);
      assert LinkOk(log, i);
      if log[i].after != log[j].before {
        LessIsTransitive(log[i].before, log[i].after, log[j].before);
      }
      LessIsStrict(log[i].before, log[j].before);
    }
  }

  /** Once a checkpoint is passed it is never seen again. */
  lemma {:induction false} CheckpointNeverReturns(s: State, steps: seq<Step>)
    requires Inv(s) && Legal(s, steps)
    ensures AtMost(s.db.pos, Exec(s, steps).db.pos)
    ensures s.log <= Exec(s, steps).log
    decreases |steps|
  {
    if steps != [] {
      var s' := Do(s, steps[0]);
      OnlyCommitsMoveTheCheckpoint(s, steps[0]);
      StepKeeps(s, steps[0]);
      CheckpointNeverReturns(s', steps[1..]);
      AtMostIsTransitive(s.db.pos, s'.db.pos, Exec(s, steps).db.pos);
    }
  }

  // ----- "already committed" ---------------------------------------------------------------

  /** The checkpoint the database had after `n` committed moves. */
  function AfterMoves(log: seq<Move>, n: nat): Pos
    requires n <= |log|
  {
    if n == 0 then START else log[n - 1].after
  }

  ghost predicate Visited(s: State, p: Pos) { exists n :: 0 <= n <= |s.log| && AfterMoves(s.log, n) == p }

  /** Every run expects a checkpoint the database really had. */
  ghost predicate ExpectsHistory(s: State) {
    forall r :: 0 <= r < |s.runs| && !s.runs[r].Down? ==> Visited(s, s.runs[r].pos)
  }

  lemma VisitedStays(s: State, s': State, p: Pos)
    requires s.log <= s'.log && Visited(s, p)
    ensures Visited(s', p)
  {
    var n :| 0 <= n <= |s.log| && AfterMoves(s.log, n) == p;
    assert AfterMoves(s'.log, n) == p;
  }

  lemma CurrentIsVisited(s: State)
    requires Inv(s)
    ensures Visited(s, s.db.pos)
  {
    assert AfterMoves(s.log, |s.log|) == s.db.pos;
  }

  lemma HistoryKept(s: State, step: Step)
    requires Inv(s) && ExpectsHistory(s) && Enabled(s, step)
    ensures ExpectsHistory(Do(s, step))
  {
    var s' := Do(s, step);
    StepKeeps(s, step);
    OnlyCommitsMoveTheCheckpoint(s, step);
    CurrentIsVisited(s);
    CurrentIsVisited(s');
    StepKeepsRunCount(s, step);
    forall r | 0 <= r < |s'.runs| && !s'.runs[r].Down? ensures Visited(s', s'.runs[r].pos) {
      PosFromBefore(s, step, r);
      StillVisited(s, s', r);
    }
  }

  lemma StepKeepsRunCount(s: State, step: Step)
    requires Enabled(s, step)
    ensures |Do(s, step).runs| == |s.runs|
  {
  }

  lemma StillVisited(s: State, s': State, r: nat)
    requires s.log <= s'.log && Visited(s, s.db.pos) && Visited(s', s'.db.pos) && ExpectsHistory(s)
    requires r < |s.runs| && r < |s'.runs| && !s'.runs[r].Down? && FromBefore(s, s', r)
    ensures Visited(s', s'.runs[r].pos)
  {
    if s'.runs[r].pos == s.db.pos {
      VisitedStays(s, s', s.db.pos);
    } else if s'.runs[r].pos != s'.db.pos {
      VisitedStays(s, s', s.runs[r].pos);
    }
  }

  lemma BeginFromBefore(s: State, r: nat, t: Txn, q: nat)
    requires WorkingAt(s, r) && q < |s.runs| && t.snap == s.db
    ensures FromBefore(s, Begin(s, r, t), q)
  {
  }

  lemma CommitFromBefore(s: State, r: nat, q: nat)
    requires Inv(s) && Enabled(s, Commit(r)) && q < |s.runs|
    ensures FromBefore(s, Do(s, Commit(r)), q)
  {
    if q == r {
      assert RunOk(s, s.runs[r]);
      InstallKeepsTable(s, s.runs[r].txn.value);
    }
  }

  lemma OtherFromBefore(s: State, step: Step, q: nat)
    requires Enabled(s, step) && q < |s.runs|
    requires !step.Commit? && !Begins(step)
    ensures FromBefore(s, Do(s, step), q)
  {
  }

  /** A step gives a run either the database's checkpoint or the one it had. */
  lemma PosFromBefore(s: State, step: Step, q: nat)
    requires Inv(s) && Enabled(s, step) && q < |s.runs|
    ensures FromBefore(s, Do(s, step), q)
  {
    if step.Commit? {
      CommitFromBefore(s, step.r, q);
    } else if Begins(step) {
      BeginFromBefore(s, step.r, TxnOf(s, step), q);
    } else {
      OtherFromBefore(s, step, q);
    }
  }

  predicate FromBefore(s: State, s': State, r: nat)
    requires r < |s.runs|
  {
    r < |s'.runs| && !s'.runs[r].Down? ==>
      || s'.runs[r].pos == s.db.pos
      || s'.runs[r].pos == s'.db.pos
      || (!s.runs[r].Down? && s'.runs[r].pos == s.runs[r].pos)
  }

  lemma {:induction false} HistoryReached(s: State, steps: seq<Step>)
    requires Inv(s) && ExpectsHistory(s) && Legal(s, steps)
    ensures Inv(Exec(s, steps)) && ExpectsHistory(Exec(s, steps))
    decreases |steps|
  {
    if steps != [] {
      StepKeeps(s, steps[0]);
      HistoryKept(s, steps[0]);
      HistoryReached(Do(s, steps[0]), steps[1..]);
    }
  }

  /** What a run is about to do when it starts a transaction. */
  function TargetOf(s: State, step: Step): Pos
    requires Enabled(s, step) && (step.BeginChunk? || step.BeginDone?)
  {
    TxnOf(s, step).goal
  }

  /** The fence says "already" exactly when the step's goal is the committed checkpoint of an
      unblocked table; then the moves committed since the run's own checkpoint lead, one after
      the other, from there to that goal, and the table holds what the goal claims. */
  ghost predicate AlreadyIsTrue(e: State, step: Step)
    requires Enabled(e, step) && (step.BeginChunk? || step.BeginDone?)
  {
    var run, goal := e.runs[step.r], TargetOf(e, step);
    && (CheckPosition(e.db, run.pos, Some(goal)) == Already <==> !e.db.blocked && e.db.pos == goal)
    && (CheckPosition(e.db, run.pos, Some(goal)) == Already ==>
          && PosOk(e.ctx, e.folder, e.listed, goal) && e.db.target == Claimed(e, goal)
          && exists n :: 0 <= n < |e.log| && e.log[n].before == run.pos && e.log[|e.log| - 1].after == goal)
  }

  lemma AlreadyMeansCommitted(s: State, steps: seq<Step>, step: Step)
    requires Init(s) && Legal(s, steps)
    requires Enabled(Exec(s, steps), step) && (step.BeginChunk? || step.BeginDone?)
    ensures AlreadyIsTrue(Exec(s, steps), step)
  {
    InitHolds(s);
    HistoryReached(s, steps);
    AlreadyHere(Exec(s, steps), step);
  }

  lemma AlreadyHere(e: State, step: Step)
    requires Inv(e) && ExpectsHistory(e) && Enabled(e, step) && (step.BeginChunk? || step.BeginDone?)
    ensures AlreadyIsTrue(e, step)
  {
    GoalDiffers(e, step);
    if e.db.pos == TargetOf(e, step) {
      MovesLeadToCurrent(e, e.runs[step.r].pos);
    }
  }

  lemma MovesLeadToCurrent(s: State, p: Pos)
    requires LogOk(s) && Visited(s, p) && p != s.db.pos
    ensures exists n :: 0 <= n < |s.log| && s.log[n].before == p
  {
    var n :| 0 <= n <= |s.log| && AfterMoves(s.log, n) == p;
    assert LinkOk(s.log, n) && s.log[n].before == p;
  }

  lemma GoalDiffers(s: State, step: Step)
    requires Inv(s) && Enabled(s, step) && (step.BeginChunk? || step.BeginDone?)
    ensures s.runs[step.r].pos != TargetOf(s, step)
  {
    assert RunOk(s, s.runs[step.r]);
    StartsNextStep(s, step);
    GoalIsNext(s, s.runs[step.r].pos, TargetOf(s, step), TxnOf(s, step).work);
    LessIsStrict(s.runs[step.r].pos, TargetOf(s, step));
  }

  // ----- files that come late --------------------------------------------------------------

  /** Why a new file has to sort after every listed one: a file at or under the high-water mark
      is never pending, however often the folder is listed, and the mark only moves forward. */
  lemma {:induction false} PendingExactly(files: seq<File>, lastDone: Option<Name>, f: File)
    ensures f in Pending(files, lastDone) <==>
            f in files && !(lastDone.Some? && UpTo(f.name, lastDone.value))
  {
    if files != [] {
      PendingExactly(files[..|files| - 1], lastDone, f);
      assert f in files <==> f in files[..|files| - 1] || f == files[|files| - 1];
    }
  }
}
