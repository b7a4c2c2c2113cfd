/**
 Counts that outlive a cycle (`_last_file_io` of scripts/glue_cdc_composite.py): a run that yields a
 file to another run remembers the file's counts, and an empty file, which leaves no counts of its
 own, has them added once more.
 */
module StaleCounts {
  import opened Util
  import opened ChangeRows
  import opened NetOps
  import opened ApplyProtocol
  import opened ApplySafety
  import opened ApplyTheorems
  import opened ApplyProgress
  import opened ApplyAlready
  import opened Drift

  // ----- what one count adds ---------------------------------------------------------------

  /** A run inside a file with rows remembers that file. */
  predicate RunRemembers(memory: map<nat, File>, run: Run, r: nat) {
    run.Working? && !run.phase.Closed? && run.pending != [] && run.pending[0].rows != [] ==>
      r in memory && memory[r] == run.pending[0]
  }

  /** What a process remembers is a file of the folder, with rows. */
  predicate MemoryIsFiles(s: State) {
    forall r :: r in s.memory ==> s.memory[r] in s.folder && s.memory[r].rows != []
  }

  ghost predicate Remembers(s: State) {
    MemoryIsFiles(s) && forall r :: 0 <= r < |s.runs| ==> RunRemembers(s.memory, s.runs[r], r)
  }

  /** The run is at no other file than before. */
  predicate SameFile(run: Run, run': Run) {
    run'.Working? && !run'.phase.Closed? ==> run.Working? && !run.phase.Closed? && run'.pending == run.pending
  }

  lemma OpenRemembers(s: State, r: nat)
    requires Inv(s) && Remembers(s) && Enabled(s, OpenFile(r))
    ensures Remembers(Do(s, OpenFile(r)))
  {
    var s', f := Do(s, OpenFile(r)), s.runs[r].pending[0];
    assert RunOk(s, s.runs[r]);
    assert f == s.folder[DoneCount(s.folder, s.runs[r].pos.lastDone)];
    forall q | 0 <= q < |s'.runs| ensures RunRemembers(s'.memory, s'.runs[q], q) {
      assert RunRemembers(s.memory, s.runs[q], q);
    }
  }

  /** A run that leaves its file, or its process, forgets it. */
  lemma LeaveRuns(s: State, step: Step, q: nat)
    requires Enabled(s, step) && (step.Count? || step.SkipCount? || step.Crash?)
    requires q < |s.runs| && RunRemembers(s.memory, s.runs[q], q)
    ensures |Do(s, step).runs| == |s.runs| && RunRemembers(Do(s, step).memory, Do(s, step).runs[q], q)
  {
  }

  lemma LeaveMemory(s: State, step: Step)
    requires MemoryIsFiles(s) && Enabled(s, step) && (step.Count? || step.SkipCount? || step.Crash?)
    ensures MemoryIsFiles(Do(s, step)) && |Do(s, step).runs| == |s.runs|
  {
  }

  lemma LeaveRemembers(s: State, step: Step)
    requires Remembers(s) && Enabled(s, step) && (step.Count? || step.SkipCount? || step.Crash?)
    ensures Remembers(Do(s, step))
  {
    var s' := Do(s, step);
    LeaveMemory(s, step);
    forall q | 0 <= q < |s'.runs| ensures RunRemembers(s'.memory, s'.runs[q], q) {
      LeaveRuns(s, step, q);
    }
  }

  predicate Stays(step: Step) {
    !(step.Arrive? || step.OpenFile? || step.Count? || step.SkipCount? || step.Crash?)
  }

  lemma StayKeepsMemory(s: State, step: Step)
    requires Enabled(s, step) && Stays(step)
    ensures Do(s, step).memory == s.memory && Do(s, step).folder == s.folder && |Do(s, step).runs| == |s.runs|
  {
  }

  lemma BeginSameFile(s: State, step: Step, q: nat)
    requires Enabled(s, step) && Begins(step) && q < |s.runs| && q < |Do(s, step).runs|
    ensures SameFile(s.runs[q], Do(s, step).runs[q])
  {
  }

  lemma CommitSameFile(s: State, r: nat, q: nat)
    requires Inv(s) && Enabled(s, Commit(r)) && q < |s.runs| && q < |Do(s, Commit(r)).runs|
    ensures SameFile(s.runs[q], Do(s, Commit(r)).runs[q])
  {
    assert RunOk(s, s.runs[r]);
  }

  lemma OtherSameFile(s: State, step: Step, q: nat)
    requires Enabled(s, step) && Stays(step) && !Begins(step) && !step.Commit?
    requires q < |s.runs| && q < |Do(s, step).runs|
    ensures SameFile(s.runs[q], Do(s, step).runs[q])
  {
  }

  lemma StaySameFile(s: State, step: Step, q: nat)
    requires Inv(s) && Enabled(s, step) && Stays(step) && q < |s.runs| && q < |Do(s, step).runs|
    ensures SameFile(s.runs[q], Do(s, step).runs[q])
  {
    if Begins(step) {
      BeginSameFile(s, step, q);
    } else if step.Commit? {
      CommitSameFile(s, step.r, q);
    } else {
      OtherSameFile(s, step, q);
    }
  }

  lemma StayRemembers(s: State, step: Step)
    requires Inv(s) && Remembers(s) && Enabled(s, step) && Stays(step)
    ensures Remembers(Do(s, step))
  {
    var s' := Do(s, step);
    StayKeepsMemory(s, step);
    forall q | 0 <= q < |s'.runs| ensures RunRemembers(s'.memory, s'.runs[q], q) {
      assert RunRemembers(s.memory, s.runs[q], q);
      StaySameFile(s, step, q);
    }
  }

  lemma ArriveRemembers(s: State, at: nat, f: File)
    requires Remembers(s) && Enabled(s, Arrive(at, f))
    ensures Remembers(Do(s, Arrive(at, f)))
  {
    forall g | g in s.folder ensures g in InsertAt(s.folder, at, f) {
      assert g in s.folder[..at] || g in s.folder[at..];
    }
  }

  lemma StepRemembers(s: State, step: Step)
    requires Inv(s) && Remembers(s) && Enabled(s, step)
    ensures Remembers(Do(s, step))
  {
    if step.Arrive? {
      ArriveRemembers(s, step.at, step.file);
    } else if step.OpenFile? {
      OpenRemembers(s, step.r);
    } else if Stays(step) {
      StayRemembers(s, step);
    } else {
      LeaveRemembers(s, step);
    }
  }

  lemma {:induction false} AllRemember(s: State, steps: seq<Step>)
    requires Inv(s) && Remembers(s) && Legal(s, steps)
    ensures Remembers(Exec(s, steps))
    decreases |steps|
  {
    if steps != [] {
      StepRemembers(s, steps[0]);
      StepKeeps(s, steps[0]);
      AllRemember(Do(s, steps[0]), steps[1..]);
    }
  }

  /** What a count adds, exactly, in every reachable state: the file just done if and only if that
      holds rows; after an empty file another file of the folder if and only if the process
      remembers one. */
  lemma CountAddsExactly(s: State, steps: seq<Step>, r: nat, acked: bool)
    requires Init(s) && Legal(s, steps) && Enabled(Exec(s, steps), Count(r, acked))
    ensures var e := Exec(s, steps);
            var f, after := e.runs[r].pending[0], Do(e, Count(r, acked)).counted;
            && (f.rows != [] ==> after == e.counted + [f])
            && (f.rows == [] && r !in e.memory ==> after == e.counted)
            && (f.rows == [] && r in e.memory ==>
                  after == e.counted + [e.memory[r]] && e.memory[r] in e.folder && e.memory[r] != f)
  {
    InitHolds(s);
    AllRemember(s, steps);
    CountAddsHere(Exec(s, steps), r, acked);
  }

  lemma CountAddsHere(e: State, r: nat, acked: bool)
    requires Remembers(e) && Enabled(e, Count(r, acked))
    ensures var f, after := e.runs[r].pending[0], Do(e, Count(r, acked)).counted;
            && (f.rows != [] ==> after == e.counted + [f])
            && (f.rows == [] && r !in e.memory ==> after == e.counted)
            && (f.rows == [] && r in e.memory ==>
                  after == e.counted + [e.memory[r]] && e.memory[r] in e.folder && e.memory[r] != f)
  {
    assert RunRemembers(e.memory, e.runs[r], r);
    if r in e.memory {
      CountAdds(e, r, acked);
    } else {
      CountAddsNothing(e, r, acked);
    }
  }

  // ----- a file counted twice --------------------------------------------------------------

  lemma Gives(s: State, r: nat) returns (e: State)
    requires Enabled(s, Fail(r))
    ensures Reaches(s, e, SINGLE) && e == s.(runs := s.runs[r := Down])
  {
    e := Do(s, Fail(r));
    ReachesSelf(e, SINGLE);
    ReachesThrough(s, Fail(r), e, SINGLE);
  }

  lemma NoRowsNoOperations(ctx: Context, g: File)
    requires g.rows == []
    ensures |Ops(ctx, g)| == 0
  {
    assert RawOps(ctx, g) == [];
  }

  /** One run opens a file and leaves it to another, which applies and counts it; the next file is
      empty, and the first run then counts the file before it again. */
  lemma FileCanBeCountedTwice(s: State, f: File, g: File)
    requires Init(s) && |s.runs| >= 2 && !s.db.blocked && s.folder == [f, g]
    requires Readable(s.ctx, f) && Ops(s.ctx, f) != [] && Readable(s.ctx, g) && g.rows == []
    ensures exists e :: Reachable(s, e) && e.counted == [f, f] && DoneCount(e.folder, e.db.pos.lastDone) == 2
  {
    var first := Enters(s, 0, 0, 0);
    var both := Enters(first, 0, 0, 1);
    HasRows(s.ctx, f);
    var counted := OtherCounts(both, f, g);
    var left := Gives(counted, 0);
    var e := CountsAgain(left, f, g);
    ReachesTwice(counted, left, e, SINGLE);
    ReachesTwice(both, counted, e, SINGLE);
    ReachesTwice(first, both, e, SINGLE);
    ReachesTwice(s, first, e, SINGLE);
    ReachesIsReachable(s, e, SINGLE);
  }

  lemma HasRows(ctx: Context, f: File)
    requires Ops(ctx, f) != []
    ensures f.rows != []
  {
    if f.rows == [] {
      NoRowsNoOperations(ctx, f);
    }
  }

  lemma OtherCounts(s: State, f: File, g: File) returns (e: State)
    requires s.folder == [f, g] && AtFile(s, 0, 0) && InsideAt(s, 0, 1)
    requires 1 in s.memory && s.memory[1] == f && s.counted == []
    ensures Reaches(s, e, SINGLE) && e.counted == [f] && e.memory == s.memory - {1}
    ensures |e.runs| == |s.runs| && e.runs[0] == s.runs[0]
    ensures e.ctx == s.ctx && e.folder == s.folder && e.db.pos == Pos(None, 0, Some(f.name)) && !e.db.blocked
  {
    var a := AppliesTo(s, 0, 0, |Ops(s.ctx, f)|, 1);
    var b := MarksItDone(a, 0, 1);
    e := Counts(b, f, 1);
    ReachesTwice(a, b, e, SINGLE);
    ReachesTwice(s, a, e, SINGLE);
  }

  lemma CountsAgain(s: State, f: File, g: File) returns (e: State)
    requires s.folder == [f, g] && Sorted(s.folder) && g.rows == [] && Readable(s.ctx, g)
    requires |s.runs| >= 2 && s.runs[0].Down? && !s.db.blocked && s.db.pos == Pos(None, 0, Some(f.name))
    requires 0 in s.memory && s.memory[0] == f && s.counted == [f]
    ensures Reaches(s, e, SINGLE) && e.counted == [f, f] && DoneCount(e.folder, e.db.pos.lastDone) == 2
  {
    NoRowsNoOperations(s.ctx, g);
    var a := Enters(s, 1, 0, 0);
    var b := MarksItDone(a, 1, 0);
    e := Counts(b, g, 0);
    ReachesTwice(a, b, e, SINGLE);
    ReachesTwice(s, a, e, SINGLE);
    DoneCountAt(e.folder, 1);
  }
}
