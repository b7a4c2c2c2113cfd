/**
 The delete mode of lambdas/create_glue_jobs.py: it reads the registry, lists the task's tagged
 jobs, deletes the union of the two job by job, and clears the registry if every job is gone.
 Create runs may go on meanwhile.
 */
module DeleteMode {
  import opened Util
  import opened Names
  import opened Registry
  import opened RegistryProtocol

  /** The registry, and Glue's jobs: each with or without the task's exact tags. */
  datatype World = World(stored: Option<Doc>, jobs: map<string, bool>)

  /** What create runs do: create a job in Glue, and later put its record. */
  datatype Event =
    | Create(name: string, tagged: bool)
    | PutRecords(project: string, suffix: string, recs: seq<Rec>, now: string)

  /** How one job's deletion goes: its run does not stop in time, Glue refuses, or its run has
      stopped and the job goes, if it is there. */
  datatype Outcome = StillRunning | Refused | Stopped

  /** The events before the tag listing, before each deletion, and before the clear; how each
      deletion goes; and whether the clear takes effect. */
  datatype Env = Env(toList: seq<Event>, before: nat -> seq<Event>, outcome: nat -> Outcome,
                     toClear: seq<Event>, clearWorks: bool)

  ghost function Happens(w: World, e: Event): World {
    match e
    case Create(name, tagged) => w.(jobs := w.jobs[name := tagged])
    case PutRecords(project, suffix, recs, now) =>
      w.(stored := Some(Changed(Contents(w.stored), Merge(project, suffix, recs, now))))
  }

  ghost function Happen(w: World, events: seq<Event>): World {
    if events == [] then w else Happens(Happen(w, events[..|events| - 1]), events[|events| - 1])
  }

  function JobNames(doc: Doc): set<string> { set i | 0 <= i < |doc.jobs| :: doc.jobs[i].name }

  function Tagged(jobs: map<string, bool>): set<string> { set n | n in jobs && jobs[n] }

  predicate TaggedNow(jobs: map<string, bool>, n: string) { n in jobs && jobs[n] }

  // ----- the run ---------------------------------------------------------------------------

  datatype Tally = Tally(world: World, deleted: seq<string>, failed: seq<string>, pending: seq<string>)

  function DeleteOne(t: Tally, name: string, o: Outcome): Tally {
    match o
    case StillRunning => t.(pending := t.pending + [name])
    case Refused => t.(failed := t.failed + [name])
    case Stopped =>
      if name in t.world.jobs
      then t.(world := t.world.(jobs := t.world.jobs - {name}), deleted := t.deleted + [name])
      else t
  }

  /** The first `n` deletions. */
  ghost function SweepTo(w: World, found: seq<string>, env: Env, n: nat): Tally
    requires n <= |found|
  {
    if n == 0 then Tally(w, [], [], [])
    else
      var t := SweepTo(w, found, env, n - 1);
      DeleteOne(t.(world := Happen(t.world, env.before(n - 1))), found[n - 1], env.outcome(n - 1))
  }

  /** What the run deletes: the registry's jobs as it read them, and the tagged ones it lists. */
  ghost function Found(w: World, env: Env): seq<string> {
    Sorted(JobNames(Contents(w.stored)) + Tagged(Happen(w, env.toList).jobs))
  }

  ghost function Swept(w: World, env: Env): Tally {
    SweepTo(Happen(w, env.toList), Found(w, env), env, |Found(w, env)|)
  }

  /** The world the clear finds. */
  ghost function AtClear(w: World, env: Env): World { Happen(Swept(w, env).world, env.toClear) }

  ghost predicate Clears(w: World, env: Env) {
    Swept(w, env).failed == [] && Swept(w, env).pending == [] && env.clearWorks
  }

  ghost function Afterwards(w: World, env: Env, now: string): World {
    var c := AtClear(w, env);
    if Clears(w, env) then c.(stored := Some(Cleared(Contents(c.stored), now))) else c
  }

  /** The registry's object and Glue, as the run finds them. */
  class Account {
    var stored: Option<Doc>
    var jobs: map<string, bool>

    ghost function Now(): World
      reads this
    {
      World(stored, jobs)
    }

    method Others(events: seq<Event>)
      modifies this
      ensures Now() == Happen(old(Now()), events)
    {
      for i := 0 to |events|
        invariant Now() == Happen(old(Now()), events[..i])
      {
        assert events[..i + 1][..i] == events[..i];
        match events[i] {
          case Create(name, tagged) => jobs := jobs[name := tagged];
          case PutRecords(project, suffix, recs, now) =>
            var doc := Compute(Contents(stored), Merge(project, suffix, recs, now));
            stored := Some(doc);
        }
      }
      assert events[..|events|] == events;
    }

    /** The delete mode: the three lists grow job by job, and the registry is cleared only when
        nothing failed and nothing is pending. */
    method Delete(env: Env, now: string) returns (deleted: seq<string>, failed: seq<string>, pending: seq<string>)
      modifies this
      ensures Now() == Afterwards(old(Now()), env, now)
      ensures Tally(Swept(old(Now()), env).world, deleted, failed, pending) == Swept(old(Now()), env)
      ensures exists found ::
                && InOrder(found) && ListsOk(found, env, |found|, deleted, failed, pending)
                && forall n :: n in found <==>
                     Recorded(old(stored), n) || TaggedNow(Happen(old(Now()), env.toList).jobs, n)
      ensures failed == [] && pending == [] && env.clearWorks ==>
                && stored.Some? && stored.value.jobs == [] && stored.value.owners == map[]
                && stored.value.deletedAt == Some(now)
      ensures failed != [] || pending != [] || !env.clearWorks ==>
                stored == Happen(Swept(old(Now()), env).world, env.toClear).stored
    {
      var recorded := JobNames(Contents(stored));
      Others(env.toList);
      ghost var listed := Now();
      var found := Sort(recorded + Tagged(jobs));
      OrderIsUnique(found, Found(old(Now()), env));
      deleted, failed, pending := [], [], [];
      for i := 0 to |found|
        invariant Tally(Now(), deleted, failed, pending) == SweepTo(listed, found, env, i)
      {
        Others(env.before(i));
        match env.outcome(i) {
          case StillRunning => pending := pending + [found[i]];
          case Refused => failed := failed + [found[i]];
          case Stopped =>
            if found[i] in jobs {
              jobs := jobs - {found[i]};
              deleted := deleted + [found[i]];
            }
        }
      }
      SweepLists(listed, found, env, |found|);
      FoundAre(old(Now()), env, found);
      Others(env.toClear);
      if failed == [] && pending == [] && env.clearWorks {
        stored := Some(Cleared(Contents(stored), now));
      }
    }
  }

  // ----- what the events leave -------------------------------------------------------------

  predicate CreatedIn(events: seq<Event>, n: string) {
    exists i :: 0 <= i < |events| && events[i].Create? && events[i].name == n
  }

  predicate MergedIn(events: seq<Event>, n: string) {
    exists i :: 0 <= i < |events| && events[i].PutRecords? && n in RecNames(events[i].recs)
  }

  lemma CreatedSnoc(events: seq<Event>, n: string)
    requires events != []
    ensures var front, e := events[..|events| - 1], events[|events| - 1];
            && (CreatedIn(events, n) <==> CreatedIn(front, n) || (e.Create? && e.name == n))
            && (MergedIn(events, n) <==> MergedIn(front, n) || (e.PutRecords? && n in RecNames(e.recs)))
  {
    var front, e := events[..|events| - 1], events[|events| - 1];
    if CreatedIn(front, n) {
      var i :| 0 <= i < |front| && front[i].Create? && front[i].name == n;
      assert events[i] == front[i];
    }
    if MergedIn(front, n) {
      var i :| 0 <= i < |front| && front[i].PutRecords? && n in RecNames(front[i].recs);
      assert events[i] == front[i];
    }
  }

  /** A create run puts records only of jobs it has brought into Glue; they still are there, unless
      they are among those the delete run deletes. */
  ghost predicate Careful(w: World, events: seq<Event>, found: seq<string>) {
    events == [] ||
    (var front, e := events[..|events| - 1], events[|events| - 1];
     && Careful(w, front, found)
     && (e.PutRecords? ==> forall n :: n in RecNames(e.recs) && n !in found ==> n in Happen(w, front).jobs))
  }

  lemma {:induction false} EventsLeave(w: World, events: seq<Event>, n: string)
    ensures n in Happen(w, events).jobs <==> n in w.jobs || CreatedIn(events, n)
    ensures Recorded(Happen(w, events).stored, n) <==> Recorded(w.stored, n) || MergedIn(events, n)
  {
    if events != [] {
      var front, e := events[..|events| - 1], events[|events| - 1];
      EventsLeave(w, front, n);
      CreatedSnoc(events, n);
      if e.PutRecords? {
        MergeKeepsJobs(Contents(Happen(w, front).stored), e.project, e.suffix, e.recs, e.now);
      }
    }
  }

  lemma {:induction false} CarefulLeaves(w: World, events: seq<Event>, found: seq<string>, n: string)
    requires Careful(w, events, found) && MergedIn(events, n) && n !in found
    ensures n in Happen(w, events).jobs
  {
    var front, e := events[..|events| - 1], events[|events| - 1];
    CreatedSnoc(events, n);
    if MergedIn(front, n) {
      CarefulLeaves(w, front, found, n);
    }
  }

  // ----- what the sweep leaves -------------------------------------------------------------

  /** Another run creates the job before one of these deletions. */
  predicate CreatedBetween(env: Env, lo: nat, hi: nat, n: string) {
    exists j :: lo <= j < hi && CreatedIn(env.before(j), n)
  }

  predicate MergedBetween(env: Env, hi: nat, n: string) { exists j :: 0 <= j < hi && MergedIn(env.before(j), n) }

  ghost predicate CarefulSweep(w: World, found: seq<string>, env: Env, k: nat)
    requires k <= |found|
  {
    forall j :: 0 <= j < k ==> Careful(SweepTo(w, found, env, j).world, env.before(j), found)
  }

  ghost predicate AllGone(t: Tally) { t.failed == [] && t.pending == [] }

  /** One turn: the job it is about is deleted if its run has stopped, and those created just before
      it are there. */
  lemma TurnLeaves(w: World, found: seq<string>, env: Env, k: nat, n: string)
    requires 0 < k <= |found|
    ensures AllGone(SweepTo(w, found, env, k)) ==> AllGone(SweepTo(w, found, env, k - 1)) && env.outcome(k - 1).Stopped?
    ensures n in SweepTo(w, found, env, k).world.jobs <==>
            && !(n == found[k - 1] && env.outcome(k - 1) == Stopped)
            && (n in SweepTo(w, found, env, k - 1).world.jobs || CreatedIn(env.before(k - 1), n))
  {
    EventsLeave(SweepTo(w, found, env, k - 1).world, env.before(k - 1), n);
  }

  /** A job whose run had stopped at its turn is in Glue exactly if it was created after that turn;
      any other, exactly if it was there or was created. */
  lemma {:induction false} SweepLeaves(w: World, found: seq<string>, env: Env, k: nat, n: string)
    requires k <= |found| && Distinct(found)
    ensures forall i :: 0 <= i < k && found[i] == n && env.outcome(i) == Stopped ==>
              (n in SweepTo(w, found, env, k).world.jobs <==> CreatedBetween(env, i + 1, k, n))
    ensures (forall i :: 0 <= i < k && found[i] == n ==> env.outcome(i) != Stopped) ==>
              (n in SweepTo(w, found, env, k).world.jobs <==> n in w.jobs || CreatedBetween(env, 0, k, n))
  {
    if k > 0 {
      TurnLeaves(w, found, env, k, n);
      SweepLeaves(w, found, env, k - 1, n);
      forall lo: nat | lo < k
        ensures CreatedBetween(env, lo, k, n) <==> CreatedBetween(env, lo, k - 1, n) || CreatedIn(env.before(k - 1), n)
      {
        LastTurn(env, lo, k, n);
      }
      forall i | 0 <= i < k && found[i] == n && env.outcome(i) == Stopped
        ensures n in SweepTo(w, found, env, k).world.jobs <==> CreatedBetween(env, i + 1, k, n)
      {
        if i == k - 1 {
          assert !CreatedBetween(env, k, k, n);
        } else {
          assert found[i] != found[k - 1];
        }
      }
    }
  }

  /** The turn of this job ends like this. */
  predicate EndsSo(found: seq<string>, env: Env, k: nat, n: string, o: Outcome) {
    exists i :: 0 <= i < k && i < |found| && found[i] == n && env.outcome(i) == o
  }

  /** The lists say how the turns ended; a job that was not there is in none. */
  ghost predicate ListsOk(found: seq<string>, env: Env, k: nat, deleted: seq<string>, failed: seq<string>,
                          pending: seq<string>) {
    && (forall n :: n in pending <==> EndsSo(found, env, k, n, StillRunning))
    && (forall n :: n in failed <==> EndsSo(found, env, k, n, Refused))
    && (forall n :: n in deleted ==> EndsSo(found, env, k, n, Stopped))
  }

  lemma EndsNext(found: seq<string>, env: Env, k: nat)
    requires k < |found|
    ensures forall n, o :: EndsSo(found, env, k + 1, n, o) <==>
              EndsSo(found, env, k, n, o) || (found[k] == n && env.outcome(k) == o)
  {
  }

  lemma ListsNext(t: Tally, found: seq<string>, env: Env, k: nat)
    requires k < |found| && ListsOk(found, env, k, t.deleted, t.failed, t.pending)
    ensures var next := DeleteOne(t, found[k], env.outcome(k));
            ListsOk(found, env, k + 1, next.deleted, next.failed, next.pending)
  {
    EndsNext(found, env, k);
  }

  lemma {:induction false} SweepLists(w: World, found: seq<string>, env: Env, k: nat)
    requires k <= |found|
    ensures var t := SweepTo(w, found, env, k); ListsOk(found, env, k, t.deleted, t.failed, t.pending)
  {
    if k > 0 {
      SweepLists(w, found, env, k - 1);
      var t := SweepTo(w, found, env, k - 1);
      ListsNext(t.(world := Happen(t.world, env.before(k - 1))), found, env, k - 1);
    }
  }

  lemma {:induction false} GoneHaveStopped(w: World, found: seq<string>, env: Env, k: nat)
    requires k <= |found| && AllGone(SweepTo(w, found, env, k))
    ensures forall i :: 0 <= i < k ==> env.outcome(i) == Stopped
  {
    if k > 0 {
      TurnLeaves(w, found, env, k, found[k - 1]);
      GoneHaveStopped(w, found, env, k - 1);
    }
  }

  lemma LastTurn(env: Env, lo: nat, k: nat, n: string)
    requires lo < k
    ensures CreatedBetween(env, lo, k, n) <==> CreatedBetween(env, lo, k - 1, n) || CreatedIn(env.before(k - 1), n)
  {
  }

  /** The registry during the sweep: nobody clears it, so it only gains. */
  lemma {:induction false} SweepRecords(w: World, found: seq<string>, env: Env, k: nat, n: string)
    requires k <= |found|
    ensures Recorded(SweepTo(w, found, env, k).world.stored, n) <==> Recorded(w.stored, n) || MergedBetween(env, k, n)
  {
    if k > 0 {
      SweepRecords(w, found, env, k - 1, n);
      EventsLeave(SweepTo(w, found, env, k - 1).world, env.before(k - 1), n);
    }
  }

  lemma {:induction false} StaysThere(w: World, found: seq<string>, env: Env, j: nat, k: nat, n: string)
    requires j <= k <= |found| && n !in found && n in SweepTo(w, found, env, j).world.jobs
    ensures n in SweepTo(w, found, env, k).world.jobs
    decreases k
  {
    if j < k {
      StaysThere(w, found, env, j, k - 1, n);
      OneTurn(w, found, env, k - 1, n);
    }
  }

  lemma OneTurn(w: World, found: seq<string>, env: Env, j: nat, n: string)
    requires j < |found| && n !in found
    requires n in Happen(SweepTo(w, found, env, j).world, env.before(j)).jobs
             || n in SweepTo(w, found, env, j).world.jobs
    ensures n in SweepTo(w, found, env, j + 1).world.jobs
  {
    var t := SweepTo(w, found, env, j);
    EventsLeave(t.world, env.before(j), n);
    assert found[j] in found;
    OthersStay(t.(world := Happen(t.world, env.before(j))), found[j], env.outcome(j), n);
  }

  /** A merged job that has no turn in the sweep is in Glue. */
  lemma MergedIsThere(w: World, found: seq<string>, env: Env, n: string)
    requires CarefulSweep(w, found, env, |found|) && n !in found
    requires n in w.jobs || MergedBetween(env, |found|, n)
    ensures n in SweepTo(w, found, env, |found|).world.jobs
  {
    var none: nat := 0;
    if n in w.jobs {
      assert n in SweepTo(w, found, env, none).world.jobs;
      StaysThere(w, found, env, none, |found|, n);
    } else {
      var j: nat :| j < |found| && MergedIn(env.before(j), n);
      CarefulLeaves(SweepTo(w, found, env, j).world, env.before(j), found, n);
      OneTurn(w, found, env, j, n);
      StaysThere(w, found, env, j + 1, |found|, n);
    }
  }

  lemma OthersStay(t: Tally, name: string, o: Outcome, n: string)
    requires n in t.world.jobs && n != name
    ensures n in DeleteOne(t, name, o).world.jobs
  {
  }

  // ----- which jobs the clear forgets ------------------------------------------------------

  /** The discipline of create runs, all along the delete run. */
  ghost predicate CarefulRun(w: World, env: Env) {
    && Careful(w, env.toList, Found(w, env))
    && CarefulSweep(Happen(w, env.toList), Found(w, env), env, |Found(w, env)|)
    && Careful(Swept(w, env).world, env.toClear, Found(w, env))
  }

  /** Some create run puts the job's record after the registry was read. */
  ghost predicate MergedSince(w: World, env: Env, n: string) {
    MergedIn(env.toList, n) || MergedBetween(env, |Found(w, env)|, n) || MergedIn(env.toClear, n)
  }

  /** Some create run creates the job again after its deletion. */
  ghost predicate CreatedAgain(w: World, env: Env, n: string) {
    exists i :: 0 <= i < |Found(w, env)| && Found(w, env)[i] == n
      && (CreatedBetween(env, i + 1, |Found(w, env)|, n) || CreatedIn(env.toClear, n))
  }

  /** A job that is in Glue after the run and was in the registry, but is no longer. */
  ghost predicate Forgotten(w: World, env: Env, now: string, n: string) {
    && n in Afterwards(w, env, now).jobs
    && Recorded(AtClear(w, env).stored, n) && !Recorded(Afterwards(w, env, now).stored, n)
  }

  lemma RecordedAtClear(w: World, env: Env, n: string)
    ensures Recorded(AtClear(w, env).stored, n) <==> Recorded(w.stored, n) || MergedSince(w, env, n)
  {
    EventsLeave(w, env.toList, n);
    SweepRecords(Happen(w, env.toList), Found(w, env), env, |Found(w, env)|, n);
    EventsLeave(Swept(w, env).world, env.toClear, n);
  }

  lemma InFound(w: World, env: Env, n: string)
    ensures n in Found(w, env) <==> Recorded(w.stored, n) || n in Tagged(Happen(w, env.toList).jobs)
    ensures Distinct(Found(w, env))
  {
    OrderedIsDistinct(Found(w, env));
    InSetOf(Found(w, env), n);
    ByNameHas(Contents(w.stored).jobs, n);
  }

  lemma FoundAre(w: World, env: Env, found: seq<string>)
    requires found == Found(w, env)
    ensures forall n :: n in found <==> Recorded(w.stored, n) || TaggedNow(Happen(w, env.toList).jobs, n)
  {
    forall n ensures n in found <==> Recorded(w.stored, n) || n in Tagged(Happen(w, env.toList).jobs) {
      InFound(w, env, n);
    }
  }

  lemma ThereAtClear(w: World, env: Env, n: string)
    requires CarefulRun(w, env) && AllGone(Swept(w, env))
    ensures n in Found(w, env) ==> (n in AtClear(w, env).jobs <==> CreatedAgain(w, env, n))
    ensures n !in Found(w, env) && MergedSince(w, env, n) ==> n in AtClear(w, env).jobs
  {
    var found, listed := Found(w, env), Happen(w, env.toList);
    InFound(w, env, n);
    EventsLeave(w, env.toList, n);
    EventsLeave(Swept(w, env).world, env.toClear, n);
    if n in found {
      var i :| 0 <= i < |found| && found[i] == n;
      SweepLeaves(listed, found, env, |found|, n);
      GoneHaveStopped(listed, found, env, |found|);
      assert forall k :: 0 <= k < |found| && found[k] == n ==> k == i;
    } else {
      if MergedIn(env.toList, n) {
        CarefulLeaves(w, env.toList, found, n);
      }
      if MergedIn(env.toClear, n) {
        CarefulLeaves(Swept(w, env).world, env.toClear, found, n);
      } else if MergedSince(w, env, n) {
        MergedIsThere(listed, found, env, n);
      }
    }
  }

  /** Exactly which live jobs the clear forgets, when it goes through: those that a create run put
      into the registry after it was read and that were not in the tag listing either, and those
      that were created again after they had been deleted. */
  lemma ForgottenExactly(w: World, env: Env, now: string, n: string)
    requires CarefulRun(w, env)
    ensures Forgotten(w, env, now, n) <==>
            && Clears(w, env)
            && if n in Found(w, env) then (Recorded(w.stored, n) || MergedSince(w, env, n)) && CreatedAgain(w, env, n)
               else MergedSince(w, env, n)
  {
    RecordedAtClear(w, env, n);
    InFound(w, env, n);
    if Clears(w, env) {
      ThereAtClear(w, env, n);
      assert Contents(Afterwards(w, env, now).stored).jobs == [];
      assert !Recorded(Afterwards(w, env, now).stored, n);
    }
  }

  /** In particular, unless somebody creates a deleted job again: a job is forgotten exactly if the
      clear goes through and the job was merged after the read, was not recorded before, and was
      not in the tag listing. */
  lemma ForgottenUnlessCreatedAgain(w: World, env: Env, now: string, n: string)
    requires CarefulRun(w, env) && !CreatedAgain(w, env, n)
    ensures Forgotten(w, env, now, n) <==>
            && Clears(w, env) && MergedSince(w, env, n)
            && !Recorded(w.stored, n) && n !in Tagged(Happen(w, env.toList).jobs)
  {
    ForgottenExactly(w, env, now, n);
    InFound(w, env, n);
  }

  /** It does happen: a job created and recorded between the listing and the clear. */
  lemma ClearCanForgetALiveJob(r: Rec, now: string)
    ensures var w, late := World(None, map[]), [Create(r.name, true), PutRecords("p", "t", [r], now)];
            exists env: Env :: env.toClear == late && CarefulRun(w, env) && Forgotten(w, env, now, r.name)
  {
    var w, late := World(None, map[]), [Create(r.name, true), PutRecords("p", "t", [r], now)];
    var env := Env([], (i: nat) => [], (i: nat) => Stopped, late, true);
    assert Happen(w, env.toList) == w;
    assert JobNames(Contents(w.stored)) + Tagged(w.jobs) == {};
    OrderIsUnique(Found(w, env), []);
    assert Swept(w, env) == Tally(w, [], [], []);
    assert late[..1] == [late[0]] && [late[0]][..0] == [];
    assert [r][0].name in RecNames([r]) && RecNames([r]) == {r.name};
    assert Happen(w, late[..1]).jobs.Keys == {r.name};
    assert Careful(w, late[..1], []) && Careful(w, late, []);
    assert MergedIn(late, r.name) by { assert late[1].PutRecords?; }
    ForgottenExactly(w, env, now, r.name);
  }
}
