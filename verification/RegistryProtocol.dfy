/**
 The compare-and-swap protocol around the job registry (lambdas/create_glue_jobs.py): any number of
 Lambda runs read the document, change their copy and put it back under the ETag they read.  ETags
 come from the content, so the same one may come back; acknowledgements may be lost.
 */
module RegistryProtocol {
  import opened Util
  import opened Registry

  /** What a run does to the document: merge its job records, or clear it after a delete. */
  datatype Change =
    | Merge(project: string, suffix: string, recs: seq<Rec>, now: string)
    | Clear(now: string)

  ghost function Changed(doc: Doc, c: Change): Doc {
    match c
    case Merge(project, suffix, recs, now) => Merged(doc, project, suffix, recs, now)
    case Clear(now) => Cleared(doc, now)
  }

  /** The copy a run works on: an absent document reads as empty. */
  function Contents(stored: Option<Doc>): Doc { if stored.Some? then stored.value else EMPTY }

  function TagOf(stored: Option<Doc>, etag: Doc -> string): Option<string> {
    if stored.Some? then Some(etag(stored.value)) else None
  }

  /** S3's conditional put: `If-Match` the tag that was read, `If-None-Match *` when there was none. */
  predicate PutPasses(stored: Option<Doc>, tag: Option<string>, etag: Doc -> string) {
    tag == TagOf(stored, etag)
  }

  ghost predicate Injective(etag: Doc -> string) {
    forall a, b :: etag(a) == etag(b) ==> a == b
  }

  const ATTEMPTS := 6

  // ----- one run's loop --------------------------------------------------------------------

  /** A successful put: who made it, and what it did. */
  datatype Put = Put(who: nat, change: Change)

  /** The document after a list of changes, each applied to what the one before left. */
  ghost function Replay(stored: Option<Doc>, puts: seq<Put>): Option<Doc> {
    if puts == [] then stored
    else Some(Changed(Contents(Replay(stored, puts[..|puts| - 1])), puts[|puts| - 1].change))
  }

  function CountBy(puts: seq<Put>, run: nat): nat {
    if puts == [] then 0
    else CountBy(puts[..|puts| - 1], run) + if puts[|puts| - 1].who == run then 1 else 0
  }

  datatype Outcome = Updated(doc: Doc) | Conflict | AckLost

  /** The stored object, as one run sees it between and during its own calls. */
  class Bucket {
    var stored: Option<Doc>
    ghost var start: Option<Doc>
    ghost var puts: seq<Put>

    ghost predicate Valid()
      reads this
    {
      stored == Replay(start, puts)
    }

    /** Other runs put their changes. */
    method Others(changes: seq<Change>, ghost me: nat)
      requires Valid()
      modifies this
      ensures Valid() && start == old(start)
      ensures old(puts) <= puts && CountBy(puts, me) == CountBy(old(puts), me)
      ensures |changes| == |puts| - |old(puts)|
      ensures changes == [] ==> stored == old(stored)
    {
      for i := 0 to |changes|
        invariant Valid() && start == old(start)
        invariant old(puts) <= puts && CountBy(puts, me) == CountBy(old(puts), me)
        invariant |puts| == |old(puts)| + i && (i == 0 ==> stored == old(stored))
      {
        ghost var p := Put(me + 1, changes[i]);
        Commit(changes[i], p);
      }
    }

    /** The put itself: the new content is the change applied to the current one. */
    method Commit(change: Change, ghost p: Put)
      requires Valid() && p.change == change
      modifies this
      ensures Valid() && start == old(start) && puts == old(puts) + [p]
      ensures stored == Some(Changed(Contents(old(stored)), change))
    {
      var doc := Compute(Contents(stored), change);
      stored := Some(doc);
      puts := puts + [p];
      assert puts[..|puts| - 1] == old(puts);
    }

    /** One try: read, change the copy, put it back under the tag that was read. */
    method TryOnce(change: Change, etag: Doc -> string, acked: bool, before: seq<Change>, between: seq<Change>,
                   ghost me: nat)
      returns (r: Outcome)
      requires Valid() && Injective(etag)
      modifies this
      ensures Valid() && start == old(start) && old(puts) <= puts
      ensures CountBy(puts, me) == CountBy(old(puts), me) + if r.Conflict? then 0 else 1
      ensures !r.Conflict? ==>
                && puts != [] && puts[|puts| - 1].who == me && puts[|puts| - 1].change == change
      ensures r.Updated? ==> stored == Some(r.doc)
      ensures r.Conflict? ==> between != []
    {
      Others(before, me);
      var doc, tag := Contents(stored), TagOf(stored, etag);
      ghost var read := stored;
      var mine := Compute(doc, change);
      Others(between, me);
      if !PutPasses(stored, tag, etag) {
        return Conflict;
      }
      assert stored == read;
      ghost var p, was := Put(me, change), puts;
      stored := Some(mine);
      puts := puts + [p];
      assert puts[..|puts| - 1] == was;
      r := if acked then Updated(mine) else AckLost;
    }

    /** `_update_registry`: on a failed precondition start over, at most `attempts` times. */
    method Update(change: Change, attempts: nat, etag: Doc -> string, acked: nat -> bool,
                  before: nat -> seq<Change>, between: nat -> seq<Change>, ghost me: nat)
      returns (r: Outcome)
      requires Valid() && Injective(etag)
      modifies this
      ensures Valid() && start == old(start) && old(puts) <= puts
      ensures CountBy(puts, me) == CountBy(old(puts), me) + if r.Conflict? then 0 else 1
      ensures !r.Conflict? ==>
                && puts != [] && puts[|puts| - 1].who == me && puts[|puts| - 1].change == change
      ensures r.Updated? ==> stored == Some(r.doc)
      ensures r.Conflict? ==> forall i :: 0 <= i < attempts ==> between(i) != []
    {
      for i := 0 to attempts
        invariant Valid() && start == old(start) && old(puts) <= puts
        invariant CountBy(puts, me) == CountBy(old(puts), me)
        invariant forall k :: 0 <= k < i ==> between(k) != []
      {
        r := TryOnce(change, etag, acked(i), before(i), between(i), me);
        if !r.Conflict? {
          return;
        }
      }
      r := Conflict;
    }
  }

  method Compute(doc: Doc, change: Change) returns (d: Doc)
    ensures d == Changed(doc, change)
  {
    match change
    case Merge(project, suffix, recs, now) => d := Mutate(doc, project, suffix, recs, now);
    case Clear(now) => d := Cleared(doc, now);
  }

  // ----- any number of runs ----------------------------------------------------------------

  datatype Phase =
    | Idle
    | Holding(doc: Doc, tag: Option<string>)
    | Done(doc: Doc)
    | Lost
    | GaveUp

  datatype Updater = Updater(change: Change, left: nat, phase: Phase)

  datatype State = State(stored: Option<Doc>, updaters: seq<Updater>, puts: seq<Put>)

  datatype Step = Read(i: nat) | TryPut(i: nat, acked: bool)

  predicate Enabled(s: State, step: Step) {
    step.i < |s.updaters| && if step.Read? then s.updaters[step.i].phase.Idle? else s.updaters[step.i].phase.Holding?
  }

  ghost function Do(s: State, step: Step, etag: Doc -> string): State
    requires Enabled(s, step)
  {
    var u := s.updaters[step.i];
    match step
    case Read(i) =>
      s.(updaters := s.updaters[i := u.(phase := Holding(Contents(s.stored), TagOf(s.stored, etag)))])
    case TryPut(i, acked) =>
      if PutPasses(s.stored, u.phase.tag, etag) then
        var doc := Changed(u.phase.doc, u.change);
        State(Some(doc), s.updaters[i := u.(phase := if acked then Done(doc) else Lost)],
              s.puts + [Put(i, u.change)])
      else
        var left := if u.left > 0 then u.left - 1 else 0;
        s.(updaters := s.updaters[i := u.(left := left, phase := if left == 0 then GaveUp else Idle)])
  }

  ghost predicate Legal(s: State, steps: seq<Step>, etag: Doc -> string)
    decreases |steps|
  {
    steps == [] || (Enabled(s, steps[0]) && Legal(Do(s, steps[0], etag), steps[1..], etag))
  }

  ghost function Exec(s: State, steps: seq<Step>, etag: Doc -> string): State
    requires Legal(s, steps, etag)
    decreases |steps|
  {
    if steps == [] then s else Exec(Do(s, steps[0], etag), steps[1..], etag)
  }

  ghost predicate Init(s: State) {
    s.puts == [] && forall i :: 0 <= i < |s.updaters| ==> s.updaters[i].phase.Idle? && s.updaters[i].left == ATTEMPTS
  }

  /** A copy and its tag belong together. */
  ghost predicate CopyOk(u: Updater, etag: Doc -> string) {
    u.phase.Holding? ==>
      (u.phase.doc == EMPTY && u.phase.tag == None) || u.phase.tag == Some(etag(u.phase.doc))
  }

  /** A run has put its change exactly once when it is done or lost the answer, and not at all
      otherwise. */
  ghost predicate OnceOk(s: State, i: nat)
    requires i < |s.updaters|
  {
    CountBy(s.puts, i) == if s.updaters[i].phase.Done? || s.updaters[i].phase.Lost? then 1 else 0
  }

  ghost predicate PutsOk(s: State) {
    forall k :: 0 <= k < |s.puts| ==>
      s.puts[k].who < |s.updaters| && s.puts[k].change == s.updaters[s.puts[k].who].change
  }

  ghost predicate Inv(s: State, start: Option<Doc>, etag: Doc -> string) {
    && s.stored == Replay(start, s.puts)
    && (forall i :: 0 <= i < |s.updaters| ==> CopyOk(s.updaters[i], etag) && OnceOk(s, i))
    && PutsOk(s)
  }

  lemma CountSnoc(puts: seq<Put>, p: Put, run: nat)
    ensures CountBy(puts + [p], run) == CountBy(puts, run) + if p.who == run then 1 else 0
  {
    assert (puts + [p])[..|puts|] == puts;
  }

  /** Any step but a successful put leaves the document and its history alone. */
  lemma QuietKeeps(s: State, s': State, start: Option<Doc>, i: nat, u: Updater, etag: Doc -> string)
    requires Inv(s, start, etag) && i < |s.updaters| && s' == s.(updaters := s.updaters[i := u])
    requires CopyOk(u, etag) && u.change == s.updaters[i].change
    requires !s.updaters[i].phase.Done? && !s.updaters[i].phase.Lost? && !u.phase.Done? && !u.phase.Lost?
    ensures Inv(s', start, etag)
  {
    forall k | 0 <= k < |s'.updaters| ensures CopyOk(s'.updaters[k], etag) && OnceOk(s', k) {
      assert CopyOk(s.updaters[k], etag) && OnceOk(s, k);
    }
  }

  /** A put that passes replaces the very content its copy was made from. */
  lemma PutReplays(s: State, start: Option<Doc>, i: nat, etag: Doc -> string)
    requires s.stored == Replay(start, s.puts) && Injective(etag) && i < |s.updaters|
    requires s.updaters[i].phase.Holding? && CopyOk(s.updaters[i], etag)
    requires PutPasses(s.stored, s.updaters[i].phase.tag, etag)
    ensures var u := s.updaters[i];
            Replay(start, s.puts + [Put(i, u.change)]) == Some(Changed(u.phase.doc, u.change))
  {
    var puts' := s.puts + [Put(i, s.updaters[i].change)];
    assert puts'[..|s.puts|] == s.puts;
    assert Contents(s.stored) == s.updaters[i].phase.doc;
  }

  lemma PutKeeps(s: State, s': State, start: Option<Doc>, i: nat, u: Updater, etag: Doc -> string)
    requires Inv(s, start, etag) && Injective(etag) && i < |s.updaters| && s.updaters[i].phase.Holding?
    requires PutPasses(s.stored, s.updaters[i].phase.tag, etag)
    requires (u.phase.Done? || u.phase.Lost?) && u.change == s.updaters[i].change
    requires s'.stored == Some(Changed(s.updaters[i].phase.doc, u.change))
    requires s'.updaters == s.updaters[i := u] && s'.puts == s.puts + [Put(i, u.change)]
    ensures Inv(s', start, etag)
  {
    assert CopyOk(s.updaters[i], etag);
    PutReplays(s, start, i, etag);
    forall k | 0 <= k < |s'.updaters| ensures CopyOk(s'.updaters[k], etag) && OnceOk(s', k) {
      assert CopyOk(s.updaters[k], etag) && OnceOk(s, k);
      PutCopy(s, s', i, u, k, etag);
      PutOnce(s, s', i, u, k);
    }
    PutsGrow(s, s', i, u);
  }

  lemma PutCopy(s: State, s': State, i: nat, u: Updater, k: nat, etag: Doc -> string)
    requires i < |s.updaters| && (u.phase.Done? || u.phase.Lost?) && s'.updaters == s.updaters[i := u]
    requires k < |s.updaters| && CopyOk(s.updaters[k], etag)
    ensures CopyOk(s'.updaters[k], etag)
  {
  }

  lemma PutOnce(s: State, s': State, i: nat, u: Updater, k: nat)
    requires i < |s.updaters| && s.updaters[i].phase.Holding? && (u.phase.Done? || u.phase.Lost?)
    requires s'.updaters == s.updaters[i := u] && s'.puts == s.puts + [Put(i, u.change)]
    requires k < |s.updaters| && OnceOk(s, k)
    ensures OnceOk(s', k)
  {
    CountSnoc(s.puts, Put(i, u.change), k);
    if k == i {
      assert OnceOk(s, i);
    }
  }

  lemma PutsGrow(s: State, s': State, i: nat, u: Updater)
    requires i < |s.updaters| && u.change == s.updaters[i].change && PutsOk(s)
    requires s'.updaters == s.updaters[i := u] && s'.puts == s.puts + [Put(i, u.change)]
    ensures PutsOk(s')
  {
  }

  lemma StepKeeps(s: State, start: Option<Doc>, step: Step, etag: Doc -> string)
    requires Inv(s, start, etag) && Injective(etag) && Enabled(s, step)
    ensures Inv(Do(s, step, etag), start, etag)
  {
    var s', u := Do(s, step, etag), s.updaters[step.i];
    if step.TryPut? && PutPasses(s.stored, u.phase.tag, etag) {
      PutKeeps(s, s', start, step.i, s'.updaters[step.i], etag);
    } else {
      QuietKeeps(s, s', start, step.i, s'.updaters[step.i], etag);
    }
  }

  lemma {:induction false} Reached(s: State, start: Option<Doc>, steps: seq<Step>, etag: Doc -> string)
    requires Inv(s, start, etag) && Injective(etag) && Legal(s, steps, etag)
    ensures Inv(Exec(s, steps, etag), start, etag)
    decreases |steps|
  {
    if steps != [] {
      StepKeeps(s, start, steps[0], etag);
      Reached(Do(s, steps[0], etag), start, steps[1..], etag);
    }
  }

  /** No update is lost: after any interleaving the stored document is the first one with exactly
      the successful changes applied, in the order of their puts; a run that finished put its
      change exactly once, a run that gave up never did, and only a run whose answer was lost may
      have put it without knowing. */
  lemma NoLostUpdate(s: State, steps: seq<Step>, etag: Doc -> string)
    requires Init(s) && Injective(etag) && Legal(s, steps, etag)
    ensures
      var e := Exec(s, steps, etag);
      && e.stored == Replay(s.stored, e.puts)
      && PutsOk(e)
      && (forall i :: 0 <= i < |e.updaters| ==> OnceOk(e, i))
  {
    Reached(s, s.stored, steps, etag);
  }

  // ----- who gives up ----------------------------------------------------------------------

  /** A copy is that of some moment of the history. */
  ghost predicate CopiedAt(s: State, start: Option<Doc>, tag: Option<string>, k: nat, etag: Doc -> string) {
    k <= |s.puts| && tag == TagOf(Replay(start, s.puts[..k]), etag)
  }

  /** Each try a run has used up was lost to another run's put. */
  ghost predicate TriesOk(s: State, start: Option<Doc>, u: Updater, etag: Doc -> string) {
    && 0 <= u.left <= 6
    && (u.phase.Idle? ==> 6 - u.left <= |s.puts|)
    && (u.phase.GaveUp? ==> 6 <= |s.puts|)
    && (u.phase.Holding? ==> u.left > 0 && exists k :: 6 - u.left <= k && CopiedAt(s, start, u.phase.tag, k, etag))
    && (u.phase.Idle? ==> u.left > 0)
  }

  ghost predicate AllTriesOk(s: State, start: Option<Doc>, etag: Doc -> string) {
    s.stored == Replay(start, s.puts) && forall i :: 0 <= i < |s.updaters| ==> TriesOk(s, start, s.updaters[i], etag)
  }

  lemma TriesStay(s: State, s': State, start: Option<Doc>, u: Updater, etag: Doc -> string)
    requires TriesOk(s, start, u, etag) && s.puts <= s'.puts
    ensures TriesOk(s', start, u, etag)
  {
    if u.phase.Holding? {
      var k :| 6 - u.left <= k && CopiedAt(s, start, u.phase.tag, k, etag);
      assert s'.puts[..k] == s.puts[..k];
      assert CopiedAt(s', start, u.phase.tag, k, etag);
    }
  }

  lemma TurnTries(s: State, start: Option<Doc>, step: Step, etag: Doc -> string)
    requires AllTriesOk(s, start, etag) && Enabled(s, step)
    ensures TriesOk(Do(s, step, etag), start, Do(s, step, etag).updaters[step.i], etag)
  {
    var u := s.updaters[step.i];
    assert s.puts[..|s.puts|] == s.puts;
    if step.Read? {
      assert CopiedAt(Do(s, step, etag), start, TagOf(s.stored, etag), |s.puts|, etag);
    } else {
      var k :| 6 - u.left <= k && CopiedAt(s, start, u.phase.tag, k, etag);
      assert k == |s.puts| ==> PutPasses(s.stored, u.phase.tag, etag);
    }
  }

  lemma {:induction false} TriesReached(s: State, start: Option<Doc>, steps: seq<Step>, etag: Doc -> string)
    requires Inv(s, start, etag) && AllTriesOk(s, start, etag) && Injective(etag) && Legal(s, steps, etag)
    ensures AllTriesOk(Exec(s, steps, etag), start, etag)
    decreases |steps|
  {
    if steps != [] {
      var s' := Do(s, steps[0], etag);
      StepKeeps(s, start, steps[0], etag);
      TurnTries(s, start, steps[0], etag);
      forall i | 0 <= i < |s'.updaters| ensures TriesOk(s', start, s'.updaters[i], etag) {
        if i != steps[0].i {
          TriesStay(s, s', start, s.updaters[i], etag);
        }
      }
      TriesReached(s', start, steps[1..], etag);
    }
  }

  /** A run gives up only when other runs have put at least six changes meanwhile, and none of its own. */
  lemma GivesUpAfterSixOthers(s: State, steps: seq<Step>, etag: Doc -> string, i: nat)
    requires Init(s) && Injective(etag) && Legal(s, steps, etag)
    requires i < |Exec(s, steps, etag).updaters| && Exec(s, steps, etag).updaters[i].phase.GaveUp?
    ensures |Exec(s, steps, etag).puts| >= 6 && CountBy(Exec(s, steps, etag).puts, i) == 0
  {
    assert AllTriesOk(s, s.stored, etag);
    TriesReached(s, s.stored, steps, etag);
    Reached(s, s.stored, steps, etag);
    assert OnceOk(Exec(s, steps, etag), i);
  }

  /** And left alone, a run that has not given up succeeds at its next try, from every state. */
  lemma UndisturbedRunSucceeds(s: State, steps: seq<Step>, etag: Doc -> string, i: nat)
    requires Init(s) && Injective(etag) && Legal(s, steps, etag) && i < |Exec(s, steps, etag).updaters|
    requires Exec(s, steps, etag).updaters[i].phase.Idle?
    ensures var e := Exec(s, steps, etag);
            && Enabled(e, Read(i)) && Enabled(Do(e, Read(i), etag), TryPut(i, true))
            && var done := Do(Do(e, Read(i), etag), TryPut(i, true), etag);
               && done.updaters[i].phase == Done(done.stored.value)
               && done.stored == Some(Changed(Contents(e.stored), e.updaters[i].change))
               && done.puts == e.puts + [Put(i, e.updaters[i].change)]
  {
  }

  // ----- the document over a whole history -------------------------------------------------

  ghost predicate DocOk(stored: Option<Doc>) { SortedJobs(Contents(stored).jobs) }

  /** Job names stay unique and sorted. */
  lemma {:induction false} JobNamesStayUnique(start: Option<Doc>, puts: seq<Put>)
    requires DocOk(start)
    ensures DocOk(Replay(start, puts))
  {
    if puts != [] {
      var front, last := puts[..|puts| - 1], puts[|puts| - 1];
      JobNamesStayUnique(start, front);
      if last.change.Merge? {
        var c := last.change;
        MergeKeepsJobs(Contents(Replay(start, front)), c.project, c.suffix, c.recs, c.now);
      }
    }
  }

  ghost predicate Recorded(stored: Option<Doc>, name: string) { name in ByName(Contents(stored).jobs) }

  /** A recorded job disappears only through a clear: it is in every later document up to the
      first clear that follows. */
  lemma {:induction false} JobsStayUntilCleared(start: Option<Doc>, puts: seq<Put>, k: nat, name: string)
    requires k <= |puts| && Recorded(Replay(start, puts[..k]), name)
    requires forall i :: k <= i < |puts| ==> puts[i].change.Merge?
    ensures Recorded(Replay(start, puts), name)
  {
    if k == |puts| {
      assert puts[..k] == puts;
    } else {
      var front, c := puts[..|puts| - 1], puts[|puts| - 1].change;
      assert front[..k] == puts[..k];
      JobsStayUntilCleared(start, front, k, name);
      MergeKeepsJobs(Contents(Replay(start, front)), c.project, c.suffix, c.recs, c.now);
    }
  }

  /** The registry holds exactly the jobs the runs put since the last clear. */
  lemma {:induction false} RegistryIsWhatWasPut(start: Option<Doc>, puts: seq<Put>, name: string)
    ensures Recorded(Replay(start, puts), name) <==> PutSinceClear(start, puts, name)
  {
    if puts != [] {
      var front, c := puts[..|puts| - 1], puts[|puts| - 1].change;
      RegistryIsWhatWasPut(start, front, name);
      if c.Merge? {
        MergeKeepsJobs(Contents(Replay(start, front)), c.project, c.suffix, c.recs, c.now);
      }
    }
  }

  ghost predicate PutSinceClear(start: Option<Doc>, puts: seq<Put>, name: string) {
    if puts == [] then Recorded(start, name)
    else
      match puts[|puts| - 1].change
      case Clear(_) => false
      case Merge(_, _, recs, _) => name in RecNames(recs) || PutSinceClear(start, puts[..|puts| - 1], name)
  }
}
