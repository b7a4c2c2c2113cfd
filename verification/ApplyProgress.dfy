/**
 The engine can always finish: whatever crashes and lost acknowledgements lie behind, one run left
 alone on an unblocked table applies every readable file that is in the folder.
 */
module ApplyProgress {
  import opened Util
  import opened ChangeRows
  import opened NetOps
  import opened ApplyProtocol
  import opened ApplySafety
  import opened ApplyTheorems

  /** Some history leads from one state to the other. */
  ghost predicate Reachable(s: State, e: State) { exists steps :: Legal(s, steps) && Exec(s, steps) == e }

  /** Some history with chunks as the cut says does. */
  ghost predicate Reaches(s: State, e: State, cut: Cut) {
    exists steps :: Legal(s, steps) && Exec(s, steps) == e && Follows(s, steps, cut)
  }

  /** A cut as packing makes them: at least one operation, and no more than fit a transaction. */
  ghost predicate CutOk(ctx: Context, cut: Cut) {
    forall f, k: nat :: k < |Ops(ctx, f)| ==> k < cut(f, k) <= |Ops(ctx, f)| && cut(f, k) - k <= 2997
  }

  lemma ReachesIsReachable(s: State, e: State, cut: Cut)
    requires Reaches(s, e, cut)
    ensures Reachable(s, e)
  {
  }

  lemma ReachesSelf(s: State, cut: Cut)
    ensures Reaches(s, s, cut)
  {
    assert Legal(s, []) && Exec(s, []) == s && Follows(s, [], cut);
  }

  lemma ReachesThrough(s: State, step: Step, e: State, cut: Cut)
    requires Enabled(s, step) && KeepsCut(s, step, cut) && Reaches(Do(s, step), e, cut)
    ensures Reaches(s, e, cut)
  {
    var rest :| Legal(Do(s, step), rest) && Exec(Do(s, step), rest) == e && Follows(Do(s, step), rest, cut);
    var steps := [step] + rest;
    assert steps[1..] == rest;
    assert Legal(s, steps) && Exec(s, steps) == e && Follows(s, steps, cut);
  }

  /** The run `r` is the table's only news: it expects the checkpoint there is, and has the whole
      rest of the folder to do. */
  ghost predicate Alone(s: State, r: nat, phase: Phase) {
    && Inv(s) && r < |s.runs| && !s.db.blocked && s.listed == |s.folder|
    && s.runs[r].Working? && s.runs[r].pos == s.db.pos && s.runs[r].phase == phase && s.runs[r].txn == None
    && (forall i :: 0 <= i < |s.folder| ==> Readable(s.ctx, s.folder[i]))
    && DoneCount(s.folder, s.db.pos.lastDone) + |s.runs[r].pending| == |s.folder| + (if phase.Counting? then 1 else 0)
  }

  ghost predicate SameRest(s: State, e: State) {
    e.folder == s.folder && e.ctx == s.ctx && e.baseline == s.baseline
  }

  lemma OpensFile(s: State, r: nat)
    requires Alone(s, r, Closed) && s.runs[r].pending != []
    ensures Enabled(s, OpenFile(r))
    ensures var e := Do(s, OpenFile(r));
            Alone(e, r, Open(s.db.pos.offset)) && SameRest(s, e) && e.runs[r].pending == s.runs[r].pending
            && e.db.pos == s.db.pos
  {
    assert RunOk(s, s.runs[r]);
    var d := DoneCount(s.folder, s.db.pos.lastDone);
    assert s.runs[r].pending[0] == s.folder[d];
    assert Enabled(s, OpenFile(r));
    StepKeeps(s, OpenFile(r));
  }

  /** Begin and commit with nobody in between. */
  lemma Commits(s: State, r: nat, phase: Phase, begin: Step)
    requires Alone(s, r, phase) && Enabled(s, begin) && (begin.BeginChunk? || begin.BeginDone?) && begin.r == r
    ensures var b, t := Do(s, begin), TxnOf(s, begin);
            && Enabled(b, Commit(r)) && Do(b, Commit(r)).runs[r] == After(s.runs[r], t)
            && Do(b, Commit(r)).db.pos == t.goal && !Do(b, Commit(r)).db.blocked
            && SameRest(s, Do(b, Commit(r))) && Do(b, Commit(r)).listed == s.listed
            && |Do(b, Commit(r)).runs| == |s.runs| && Inv(Do(b, Commit(r)))
  {
    var t := TxnOf(s, begin);
    StepKeeps(s, begin);
    var b := Do(s, begin);
    assert CheckPosition(s.db, s.runs[r].pos, Some(t.goal)) == Proceed;
    assert b.runs[r].txn == Some(t);
    StepKeeps(b, Commit(r));
  }

  /** One chunk of the file at hand. */
  lemma AppliesChunk(s: State, r: nat, k: nat, upto: nat)
    requires Alone(s, r, Open(k)) && s.runs[r].pending != []
    requires k < upto <= |Ops(s.ctx, s.runs[r].pending[0])| && upto - k <= MAX_CHUNK_OPS
    ensures && Enabled(s, BeginChunk(r, upto)) && Enabled(Do(s, BeginChunk(r, upto)), Commit(r))
            && var e := Do(Do(s, BeginChunk(r, upto)), Commit(r));
            Alone(e, r, Open(upto)) && SameRest(s, e) && e.runs[r].pending == s.runs[r].pending
  {
    Commits(s, r, Open(k), BeginChunk(r, upto));
  }

  lemma MarksDone(s: State, r: nat)
    requires r < |s.runs| && s.runs[r].Working? && s.runs[r].pending != []
    requires Alone(s, r, Open(|Ops(s.ctx, s.runs[r].pending[0])|))
    ensures && Enabled(s, BeginDone(r)) && Enabled(Do(s, BeginDone(r)), Commit(r))
            && var e := Do(Do(s, BeginDone(r)), Commit(r));
            Alone(e, r, Counting) && SameRest(s, e) && e.runs[r].pending == s.runs[r].pending
  {
    NextFileAt(s, r);
    var d := DoneCount(s.folder, s.db.pos.lastDone);
    DoneCountAt(s.folder, d);
    Commits(s, r, Open(|Ops(s.ctx, s.runs[r].pending[0])|), BeginDone(r));
  }

  lemma NextFileAt(s: State, r: nat)
    requires r < |s.runs| && s.runs[r].Working? && s.runs[r].pending != [] && !s.runs[r].phase.Counting?
    requires Inv(s) && s.runs[r].pos == s.db.pos
    ensures var d := DoneCount(s.folder, s.db.pos.lastDone); d < |s.folder| && s.folder[d] == s.runs[r].pending[0]
  {
    assert RunOk(s, s.runs[r]);
  }

  lemma CountsFile(s: State, r: nat)
    requires Alone(s, r, Counting) && s.runs[r].pending != []
    ensures Enabled(s, Count(r, true))
    ensures var e := Do(s, Count(r, true));
            Alone(e, r, Closed) && SameRest(s, e) && e.runs[r].pending == s.runs[r].pending[1..]
  {
    StepKeeps(s, Count(r, true));
  }

  /** From an open file to its counters. */
  lemma FinishesFile(s: State, r: nat, k: nat, cut: Cut) returns (e: State)
    requires CutOk(s.ctx, cut) && Alone(s, r, Open(k)) && s.runs[r].pending != []
    requires k <= |Ops(s.ctx, s.runs[r].pending[0])|
    ensures Reaches(s, e, cut) && Alone(e, r, Closed) && SameRest(s, e) && e.runs[r].pending == s.runs[r].pending[1..]
    decreases |Ops(s.ctx, s.runs[r].pending[0])| - k
  {
    var n := |Ops(s.ctx, s.runs[r].pending[0])|;
    if k < n {
      var upto := cut(s.runs[r].pending[0], k);
      AppliesChunk(s, r, k, upto);
      var b := Do(s, BeginChunk(r, upto));
      var c := Do(b, Commit(r));
      e := FinishesFile(c, r, upto, cut);
      ReachesThrough(b, Commit(r), e, cut);
      ReachesThrough(s, BeginChunk(r, upto), e, cut);
    } else {
      MarksDone(s, r);
      var b := Do(s, BeginDone(r));
      var c := Do(b, Commit(r));
      CountsFile(c, r);
      e := Do(c, Count(r, true));
      ReachesSelf(e, cut);
      ReachesThrough(c, Count(r, true), e, cut);
      ReachesThrough(b, Commit(r), e, cut);
      ReachesThrough(s, BeginDone(r), e, cut);
    }
  }

  lemma {:induction false} FinishesPending(s: State, r: nat, cut: Cut) returns (e: State)
    requires CutOk(s.ctx, cut) && Alone(s, r, Closed)
    ensures Reaches(s, e, cut) && Alone(e, r, Closed) && SameRest(s, e) && e.runs[r].pending == []
    decreases |s.runs[r].pending|
  {
    if s.runs[r].pending == [] {
      ReachesSelf(s, cut);
      e := s;
    } else {
      OpensFile(s, r);
      var o := Do(s, OpenFile(r));
      OffsetFits(o, r);
      var f := FinishesFile(o, r, s.db.pos.offset, cut);
      e := FinishesPending(f, r, cut);
      ReachesTwice(o, f, e, cut);
      ReachesThrough(s, OpenFile(r), e, cut);
    }
  }

  lemma OffsetFits(s: State, r: nat)
    requires Alone(s, r, Open(s.db.pos.offset)) && s.runs[r].pending != []
    ensures s.db.pos.offset <= |Ops(s.ctx, s.runs[r].pending[0])|
  {
    assert RunOk(s, s.runs[r]);
    assert s.runs[r].pending[0] == s.folder[DoneCount(s.folder, s.db.pos.lastDone)];
  }

  lemma ReachesTwice(a: State, b: State, c: State, cut: Cut)
    requires Reaches(a, b, cut) && Reaches(b, c, cut)
    ensures Reaches(a, c, cut)
  {
    var first :| Legal(a, first) && Exec(a, first) == b && Follows(a, first, cut);
    var second :| Legal(b, second) && Exec(b, second) == c && Follows(b, second, cut);
    ExecConcat(a, first, second);
    FollowsConcat(a, first, second, cut);
  }

  lemma {:induction false} ExecConcat(s: State, first: seq<Step>, second: seq<Step>)
    requires Legal(s, first) && Legal(Exec(s, first), second)
    ensures Legal(s, first + second) && Exec(s, first + second) == Exec(Exec(s, first), second)
    decreases |first|
  {
    if first == [] {
      assert first + second == second;
    } else {
      assert (first + second)[1..] == first[1..] + second;
      ExecConcat(Do(s, first[0]), first[1..], second);
    }
  }

  lemma {:induction false} FollowsConcat(s: State, first: seq<Step>, second: seq<Step>, cut: Cut)
    requires Legal(s, first) && Legal(Exec(s, first), second) && Legal(s, first + second)
    requires Follows(s, first, cut) && Follows(Exec(s, first), second, cut)
    ensures Follows(s, first + second, cut)
    decreases |first|
  {
    if first == [] {
      assert first + second == second;
    } else {
      assert (first + second)[1..] == first[1..] + second;
      FollowsConcat(Do(s, first[0]), first[1..], second, cut);
    }
  }

  lemma ListShape(s: State, r: nat)
    requires Sorted(s.folder) && s.listed <= |s.folder| && PosOk(s.ctx, s.folder, s.listed, s.db.pos)
    requires r < |s.runs| && s.runs[r] == Reading(s.db.pos)
    ensures var d := DoneCount(s.folder, s.db.pos.lastDone);
            Do(s, List(r, |s.folder|))
            == s.(listed := |s.folder|,
                  runs := s.runs[r := if d == |s.folder| then Down else Working(s.db.pos, s.folder[d..], Closed, None)])
  {
    AllPending(s.folder, s.db.pos.lastDone, DoneCount(s.folder, s.db.pos.lastDone));
  }

  lemma AllPending(folder: seq<File>, lastDone: Option<Name>, d: nat)
    requires Sorted(folder) && d <= |folder|
    requires lastDone == None ==> d == 0
    requires lastDone.Some? ==> d > 0 && folder[d - 1].name == lastDone.value
    ensures Pending(folder[..|folder|], lastDone) == folder[d..]
  {
    assert folder[..|folder|] == folder;
    PendingIsSuffix(folder, lastDone, d);
  }

  lemma Listing(s: State, r: nat)
    requires Inv(s) && r < |s.runs| && s.runs[r] == Reading(s.db.pos) && !s.db.blocked
    requires forall i :: 0 <= i < |s.folder| ==> Readable(s.ctx, s.folder[i])
    ensures var e := Do(s, List(r, |s.folder|));
            && Inv(e) && SameRest(s, e) && e.db == s.db && r < |e.runs|
            && (e.runs[r].Down? ==> DoneCount(s.folder, s.db.pos.lastDone) == |s.folder|)
            && (!e.runs[r].Down? ==> Alone(e, r, Closed))
  {
    StepKeeps(s, List(r, |s.folder|));
    ListShape(s, r);
  }

  lemma GoesDown(s: State, r: nat) returns (d: State)
    requires Inv(s) && r < |s.runs|
    ensures Enabled(s, Crash(r)) && d == Do(s, Crash(r)) == s.(runs := s.runs[r := Down], memory := d.memory) && Inv(d)
  {
    StepKeeps(s, Crash(r));
    d := Do(s, Crash(r));
  }

  lemma ReadsAgain(s: State, r: nat) returns (d: State)
    requires Inv(s) && r < |s.runs| && s.runs[r] == Down && !s.db.blocked
    ensures Enabled(s, ReadState(r)) && d == Do(s, ReadState(r)) == s.(runs := s.runs[r := Reading(s.db.pos)]) && Inv(d)
  {
    StepKeeps(s, ReadState(r));
    d := Do(s, ReadState(r));
  }

  lemma Restarts(s: State, r: nat, cut: Cut) returns (d: State)
    requires Inv(s) && r < |s.runs| && !s.db.blocked
    ensures d.db == s.db && SameRest(s, d) && r < |d.runs| && d.runs[r] == Reading(d.db.pos) && Inv(d)
    ensures forall e :: Reaches(d, e, cut) ==> Reaches(s, e, cut)
  {
    var c := GoesDown(s, r);
    d := ReadsAgain(c, r);
    forall e | Reaches(d, e, cut) ensures Reaches(s, e, cut) {
      ReachesThrough(c, ReadState(r), e, cut);
      ReachesThrough(s, Crash(r), e, cut);
    }
  }

  /** A run that starts afresh lists the rest of the folder. */
  lemma StartsAlone(s: State, r: nat, cut: Cut) returns (e: State)
    requires Inv(s) && r < |s.runs| && !s.db.blocked
    requires forall i :: 0 <= i < |s.folder| ==> Readable(s.ctx, s.folder[i])
    ensures Reaches(s, e, cut) && SameRest(s, e) && Inv(e) && e.db == s.db && r < |e.runs|
    ensures e.runs[r].Down? ==> DoneCount(s.folder, s.db.pos.lastDone) == |s.folder|
    ensures !e.runs[r].Down? ==> Alone(e, r, Closed)
  {
    var d := Restarts(s, r, cut);
    Listing(d, r);
    e := Do(d, List(r, |s.folder|));
    ReachesSelf(e, cut);
    ReachesThrough(d, List(r, |s.folder|), e, cut);
  }

  lemma AllDone(s: State)
    requires DbOk(s) && DoneCount(s.folder, s.db.pos.lastDone) == |s.folder|
    ensures s.db.target == FullTable(s.ctx, s.baseline, s.folder)
  {
    var p := s.db.pos;
    assert p.inProgress == None;
    assert s.folder[..|s.folder|] == s.folder;
  }

  /** Wherever the engine has got to, if the table is not blocked and no file in the folder is one
      the collapse refuses, some continuation leaves every file of the folder applied, once and in
      order: no crash, lost answer or second run can wedge it.  However files are cut into chunks
      that fit a transaction, the continuation sends exactly those chunks. */
  lemma EngineCanAlwaysFinish(s: State, steps: seq<Step>, r: nat, cut: Cut)
    requires Init(s) && Legal(s, steps) && CutOk(s.ctx, cut)
    requires var e := Exec(s, steps);
             r < |e.runs| && !e.db.blocked && forall i :: 0 <= i < |e.folder| ==> Readable(e.ctx, e.folder[i])
    ensures exists more ::
              && Legal(s, steps + more) && Legal(Exec(s, steps), more) && Follows(Exec(s, steps), more, cut)
              && var e, f := Exec(s, steps), Exec(s, steps + more);
              f.folder == e.folder && f.db.target == FullTable(e.ctx, e.baseline, e.folder)
  {
    InitHolds(s);
    Reached(s, steps);
    SameContext(s, steps);
    var e := Exec(s, steps);
    var f := Finishes(e, r, cut);
    var more :| Legal(e, more) && Exec(e, more) == f && Follows(e, more, cut);
    ExecConcat(s, steps, more);
  }

  lemma {:induction false} SameContext(s: State, steps: seq<Step>)
    requires Legal(s, steps)
    ensures Exec(s, steps).ctx == s.ctx
    decreases |steps|
  {
    if steps != [] {
      StepKeepsContext(s, steps[0]);
      SameContext(Do(s, steps[0]), steps[1..]);
    }
  }

  lemma StepKeepsContext(s: State, step: Step)
    requires Enabled(s, step)
    ensures Do(s, step).ctx == s.ctx
  {
  }

  lemma Finishes(s: State, r: nat, cut: Cut) returns (f: State)
    requires CutOk(s.ctx, cut) && Inv(s) && r < |s.runs| && !s.db.blocked
    requires forall i :: 0 <= i < |s.folder| ==> Readable(s.ctx, s.folder[i])
    ensures Reaches(s, f, cut) && f.folder == s.folder && f.db.target == FullTable(s.ctx, s.baseline, s.folder)
  {
    var a := StartsAlone(s, r, cut);
    if a.runs[r].Down? {
      f := a;
    } else {
      f := FinishesPending(a, r, cut);
      ReachesTwice(s, a, f, cut);
    }
    AllDone(f);
  }
}
