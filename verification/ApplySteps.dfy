/**
 What the step system lets happen: files, the operator and failures come at any time, a run goes on
 from wherever it is, and each change of the row shuts out every transaction that read the row before.
 */
module ApplySteps {
  import opened Util
  import opened ChangeRows
  import opened NetOps
  import opened ApplyProtocol

  // ----- what is free to happen ------------------------------------------------------------

  function Below(folder: seq<File>, name: Name): (n: nat)
    ensures n <= |folder|
  {
    if folder == [] then 0
    else Below(folder[..|folder| - 1], name) + if Before(folder[|folder| - 1].name, name) then 1 else 0
  }

  lemma {:induction false} BelowSplits(folder: seq<File>, name: Name)
    requires Sorted(folder) && forall i :: 0 <= i < |folder| ==> folder[i].name != name
    ensures forall i :: 0 <= i < |folder| ==>
              if i < Below(folder, name) then Before(folder[i].name, name) else Before(name, folder[i].name)
  {
    if folder != [] {
      var front, last := folder[..|folder| - 1], folder[|folder| - 1].name;
      BelowSplits(front, name);
      BeforeIsTotal(last, name);
      if Before(last, name) {
        AllAreBelow(front, name, last);
      }
    }
  }

  lemma AllAreBelow(folder: seq<File>, name: Name, later: Name)
    requires forall i :: 0 <= i < |folder| ==>
               if i < Below(folder, name) then Before(folder[i].name, name) else Before(name, folder[i].name)
    requires Before(later, name) && forall i :: 0 <= i < |folder| ==> Before(folder[i].name, later)
    ensures Below(folder, name) == |folder|
  {
    var n := Below(folder, name);
    if n < |folder| {
      BeforeIsTransitive(folder[n].name, later, name);
      BeforeIsTotal(folder[n].name, name);
    }
  }

  /** A file with a name of its own may arrive at any time, if its name is behind those listed so far;
      it takes its place in the order of names, and nothing else changes. */
  lemma ArrivalsAreFree(s: State, f: File) returns (at: nat)
    requires Sorted(s.folder) && s.listed <= |s.folder|
    requires forall i :: 0 <= i < |s.folder| ==> s.folder[i].name != f.name
    requires forall i :: 0 <= i < s.listed ==> Before(s.folder[i].name, f.name)
    ensures Enabled(s, Arrive(at, f))
    ensures var e := Do(s, Arrive(at, f));
            && e == s.(folder := e.folder) && Sorted(e.folder) && f in e.folder
            && multiset(e.folder) == multiset(s.folder) + multiset{f}
  {
    at := Below(s.folder, f.name);
    BelowSplits(s.folder, f.name);
    if at < s.listed {
      BeforeIsTotal(s.folder[at].name, f.name);
    }
    InsertSorted(s.folder, at, f);
    assert s.folder == s.folder[..at] + s.folder[at..];
    assert InsertAt(s.folder, at, f)[at] == f;
  }

  lemma InsertSorted(folder: seq<File>, at: nat, f: File)
    requires Sorted(folder) && at <= |folder|
    requires forall i :: 0 <= i < |folder| ==>
               if i < at then Before(folder[i].name, f.name) else Before(f.name, folder[i].name)
    ensures Sorted(InsertAt(folder, at, f))
  {
    var more := InsertAt(folder, at, f);
    assert forall i :: 0 <= i < |more| ==>
             more[i] == if i < at then folder[i] else if i == at then f else folder[i - 1];
  }

  /** The operator and other writers of the row act at any time, and change no more than that. */
  lemma TheRowIsShared(s: State, b: bool)
    ensures Enabled(s, SetBlocked(b)) && Enabled(s, Touch)
    ensures var e := Do(s, SetBlocked(b));
            e == s.(db := e.db) && e.db == s.db.(blocked := b, version := e.db.version) && e.db.version > s.db.version
    ensures var e := Do(s, Touch);
            e == s.(db := e.db) && e.db == s.db.(version := e.db.version) && e.db.version > s.db.version
  {
  }

  /** A run dies at any moment and forgets everything; between its transactions an error may end its
      cycle, and the counts stay in memory; a transaction may be aborted, or lose its answer and live on. */
  lemma FailuresAreFree(s: State, r: nat)
    requires r < |s.runs|
    ensures Enabled(s, Crash(r)) && Do(s, Crash(r)) == s.(runs := s.runs[r := Down], memory := s.memory - {r})
    ensures !s.runs[r].Working? ==> Enabled(s, Fail(r))
    ensures Enabled(s, Fail(r)) ==> Do(s, Fail(r)) == s.(runs := s.runs[r := Down])
    ensures s.runs[r].Working? && s.runs[r].txn.Some? ==>
              && Enabled(s, Abort(r)) && Enabled(s, LoseAck(r))
              && Do(s, Abort(r)) == s.(runs := s.runs[r := s.runs[r].(txn := None)])
              && Do(s, LoseAck(r)) == Do(s, Abort(r)).(orphans := s.orphans + [s.runs[r].txn.value])
    ensures s.runs[r].Working? && s.runs[r].txn == None && !s.runs[r].phase.Counting? ==> Enabled(s, Fail(r))
  {
  }

  /** From wherever it is, a run has its next step: reading the checkpoint of a table that is not
      blocked, listing as far as it likes, opening a file that can be read, sending any next chunk of up
      to 2,997 operations or, behind the last one, the done step, committing on a row nobody has
      changed, counting, and at the end the idle step. */
  lemma RunsGoOn(s: State, r: nat)
    requires r < |s.runs|
    ensures s.runs[r] == Down && !s.db.blocked ==>
              Enabled(s, ReadState(r)) && Do(s, ReadState(r)).runs[r] == Reading(s.db.pos)
    ensures s.runs[r].Reading? ==> forall k: nat :: k <= |s.folder| ==> Enabled(s, List(r, k))
    ensures s.runs[r].Working? && s.runs[r].txn.Some? && s.runs[r].txn.value.snap.version == s.db.version ==>
              Enabled(s, Commit(r))
    ensures s.runs[r].Working? && s.runs[r].txn == None ==> NextEnabled(s, r)
  {
  }

  /** The next step of a run between its transactions. */
  ghost predicate NextEnabled(s: State, r: nat)
    requires r < |s.runs| && s.runs[r].Working?
  {
    var run := s.runs[r];
    match run.phase
    case Closed =>
      if run.pending == [] then Enabled(s, BeginIdle(r))
      else Readable(s.ctx, run.pending[0]) ==> Enabled(s, OpenFile(r))
    case Open(k) =>
      run.pending != [] ==>
        var n := |Ops(s.ctx, run.pending[0])|;
        && (forall upto: nat :: k < upto <= n && upto - k <= 2997 ==> Enabled(s, BeginChunk(r, upto)))
        && (k == n ==> Enabled(s, BeginDone(r)))
        && (n == 0 && run.pending[0].rows != [] ==> Enabled(s, MarkEmpty(r)))
    case Counting =>
      run.pending != [] ==> Enabled(s, Count(r, true)) && Enabled(s, Count(r, false)) && Enabled(s, SkipCount(r))
  }

  // ----- one writer at a time --------------------------------------------------------------

  /** Whoever changes the row shuts out every transaction that read it before: a commit, by its own run
      or late, the operator, another writer, or a count. */
  lemma EachChangeShutsOutTheOthers(s: State, step: Step, t: Txn)
    requires Enabled(s, step) && t.snap.version <= s.db.version
    requires || step.Commit? || step.OrphanCommit? || step.SetBlocked? || step.Touch?
             || (step.Count? && step.r in s.memory)
    ensures !CanCommit(Do(s, step).db, t)
  {
  }

  /** A count whose answer is lost is added again by the retry, and only then does the run go on to the
      next file; a count that keeps failing is given up. */
  lemma LostCountIsAddedAgain(s: State, r: nat)
    requires Enabled(s, Count(r, false)) && r in s.memory
    ensures var lost, f := Do(s, Count(r, false)), s.memory[r];
            && lost.runs == s.runs && lost.memory == s.memory && lost.counted == s.counted + [f]
            && Enabled(lost, Count(r, true)) && Enabled(lost, SkipCount(r))
    ensures var again, f := Do(Do(s, Count(r, false)), Count(r, true)), s.memory[r];
            && again.counted == (s.counted + [f]) + [f] && r !in again.memory
            && again.runs[r] == s.runs[r].(pending := s.runs[r].pending[1..], phase := Closed)
    ensures var left := Do(s, SkipCount(r));
            && left.counted == s.counted && left.db == s.db && r !in left.memory
            && left.runs[r] == s.runs[r].(pending := s.runs[r].pending[1..], phase := Closed)
  {
  }

  /** The cycle of a run that has nothing left to apply ends with the idle step, which confirms the
      checkpoint and changes neither the table nor the history. */
  lemma IdleCycleEnds(s: State, r: nat)
    requires WorkingAt(s, r) && s.runs[r].pending == [] && s.runs[r].phase == Closed && s.runs[r].txn == None
    requires !s.db.blocked && s.db.pos == s.runs[r].pos
    ensures Enabled(s, BeginIdle(r)) && Enabled(Do(s, BeginIdle(r)), Commit(r))
    ensures var e := Do(Do(s, BeginIdle(r)), Commit(r));
            && e.runs[r] == Down && e.db.pos == Pos(None, 0, s.db.pos.lastDone) && e.db.version > s.db.version
            && e.db.target == s.db.target && e.db.ledger == s.db.ledger && e.log == s.log && !e.db.blocked
  {
  }
}
