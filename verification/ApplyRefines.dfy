/**
 The loop of `apply_file` and the step system of the engine (scripts/glue_cdc_composite.py) are about
 the same thing: an attempt at a chunk is a few steps of a run, whatever the other runs do between
 them is interference as the loop allows for, and the chunks it packs are chunks the engine can
 finish with.
 */
module ApplyRefines {
  import opened Util
  import opened ChangeRows
  import opened NetOps
  import opened ApplyProtocol
  import opened ApplySafety
  import opened ApplyTheorems
  import opened ApplyProgress
  import opened ApplyAlready
  import opened ChunkSize
  import opened Packing
  import opened RetryPolicy
  import opened RetryLoop
  import opened ApplyFile

  // ----- an attempt is steps of a run ------------------------------------------------------

  /** The run is inside file `f` with this checkpoint. */
  predicate RunsIn(s: State, r: nat, f: File, pos: Pos) {
    && InFile(s, r) && s.runs[r].pending[0] == f && s.runs[r].pos == pos && s.runs[r].phase == Open(pos.offset)
  }

  /** The rest of an attempt once its transaction is open: it commits, or rolls back, or commits
      behind the back of a client that only sees an error. */
  function OwnSteps(r: nat, v: Verdict, tookEffect: bool, orphans: nat): seq<Step> {
    match v
    case Yield => []
    case Skipped => []
    case Refused => [Abort(r)]
    case Landed => [Commit(r)]
    case Error(_) => if tookEffect then [LoseAck(r), OrphanCommit(orphans)] else [Abort(r)]
  }

  /** The attempt's commit takes effect. */
  predicate TakesEffect(env: Env, t: nat, db: Db) {
    && env.weather(t) != RowGuard && env.during(t, db).version == db.version
    && (env.weather(t).Clear? || env.weather(t).f.committed)
  }

  /** The state in which the attempt's last steps are taken: the transaction has begun, and other runs
      have moved. */
  function AtWork(s: State, r: nat, env: Env, t: nat, upto: nat): State
    requires Enabled(s, BeginChunk(r, upto))
  {
    var b := Do(s, BeginChunk(r, upto));
    if s.db.blocked || s.db.pos != s.runs[r].pos || env.weather(t) == RowGuard then b
    else b.(db := env.during(t, b.db))
  }

  lemma OneStep(s: State, step: Step)
    requires Enabled(s, step)
    ensures Legal(s, [step]) && Exec(s, [step]) == Do(s, step)
  {
    assert [step][1..] == [];
  }

  lemma TwoSteps(s: State, one: Step, two: Step)
    requires Enabled(s, one) && Enabled(Do(s, one), two)
    ensures Legal(s, [one, two]) && Exec(s, [one, two]) == Do(Do(s, one), two)
  {
    OneStep(Do(s, one), two);
    assert [one, two][1..] == [two];
  }

  /** An attempt of the retry loop is what the run's steps do: begin the chunk, let the other runs
      move, and commit, roll back or commit unseen.  The database and the run's checkpoint come out
      the same, and only a run that finds the checkpoint moved is down. */
  lemma AttemptIsSteps(s: State, r: nat, env: Env, t: nat, f: File, upto: nat)
    requires r < |s.runs| && s.runs[r].Working?
    requires var s1 := s.(db := env.before(t, s.db));
             && InFile(s1, r) && s.runs[r].pending[0] == f && s.runs[r].phase == Open(s.runs[r].pos.offset)
             && Enabled(s1, BeginChunk(r, upto))
    ensures
      var pos := s.runs[r].pos;
      var (db', pos', v) := TriedOn(s.ctx, env, t, s.db, pos, f, upto);
      var s1 := s.(db := env.before(t, s.db));
      var b := AtWork(s1, r, env, t, upto);
      var own := OwnSteps(r, v, TakesEffect(env, t, s1.db), |s.orphans|);
      && Legal(b, own)
      && var e := Exec(b, own);
      && e.db == db' && r < |e.runs|
      && (v.Yield? ==> e.runs[r].Down?)
      && (!v.Yield? ==> RunsIn(e, r, f, pos'))
  {
    var s1 := s.(db := env.before(t, s.db));
    match CheckPosition(s1.db, s.runs[r].pos, Some(TargetOf(s1, BeginChunk(r, upto))))
    case Moved =>
    case Already =>
    case Proceed => SentIsSteps(s1, r, env, t, f, upto);
  }

  lemma SentIsSteps(s: State, r: nat, env: Env, t: nat, f: File, upto: nat)
    requires Enabled(s, BeginChunk(r, upto)) && RunsIn(s, r, f, s.runs[r].pos)
    requires s.db.pos == s.runs[r].pos && !s.db.blocked
    ensures
      var (db', pos', v) := SentOn(s.ctx, env, t, s.db, s.runs[r].pos, f, upto);
      var b := AtWork(s, r, env, t, upto);
      var own := OwnSteps(r, v, TakesEffect(env, t, s.db), |s.orphans|);
      && Legal(b, own) && !v.Yield?
      && var e := Exec(b, own);
      && e.db == db' && RunsIn(e, r, f, pos')
  {
    var v := SentOn(s.ctx, env, t, s.db, s.runs[r].pos, f, upto).2;
    if v.Landed? {
      SentLands(s, r, env, t, f, upto);
    } else if TakesEffect(env, t, s.db) {
      SentUnseen(s, r, env, t, f, upto);
    } else {
      SentAborts(s, r, env, t, f, upto);
    }
  }

  lemma SentLands(s: State, r: nat, env: Env, t: nat, f: File, upto: nat)
    requires Enabled(s, BeginChunk(r, upto)) && RunsIn(s, r, f, s.runs[r].pos)
    requires s.db.pos == s.runs[r].pos && !s.db.blocked
    requires SentOn(s.ctx, env, t, s.db, s.runs[r].pos, f, upto).2.Landed?
    ensures var (db', pos', _) := SentOn(s.ctx, env, t, s.db, s.runs[r].pos, f, upto);
            var b := AtWork(s, r, env, t, upto);
            Legal(b, [Commit(r)]) && Exec(b, [Commit(r)]).db == db' && RunsIn(Exec(b, [Commit(r)]), r, f, pos')
  {
    var b := Begun(s, r, env, t, upto);
    OneStep(b, Commit(r));
  }

  lemma SentUnseen(s: State, r: nat, env: Env, t: nat, f: File, upto: nat)
    requires Enabled(s, BeginChunk(r, upto)) && RunsIn(s, r, f, s.runs[r].pos)
    requires s.db.pos == s.runs[r].pos && !s.db.blocked && TakesEffect(env, t, s.db)
    requires SentOn(s.ctx, env, t, s.db, s.runs[r].pos, f, upto).2.Error?
    ensures var (db', pos', _) := SentOn(s.ctx, env, t, s.db, s.runs[r].pos, f, upto);
            var b, own := AtWork(s, r, env, t, upto), [LoseAck(r), OrphanCommit(|s.orphans|)];
            Legal(b, own) && Exec(b, own).db == db' && RunsIn(Exec(b, own), r, f, pos')
  {
    var b := Begun(s, r, env, t, upto);
    LostIsSteps(b, r, TxnOf(s, BeginChunk(r, upto)));
  }

  lemma SentAborts(s: State, r: nat, env: Env, t: nat, f: File, upto: nat)
    requires Enabled(s, BeginChunk(r, upto)) && RunsIn(s, r, f, s.runs[r].pos)
    requires s.db.pos == s.runs[r].pos && !s.db.blocked && !TakesEffect(env, t, s.db)
    ensures var (db', pos', v) := SentOn(s.ctx, env, t, s.db, s.runs[r].pos, f, upto);
            var b := AtWork(s, r, env, t, upto);
            && (v.Refused? || v.Error?)
            && Legal(b, [Abort(r)]) && Exec(b, [Abort(r)]).db == db' && RunsIn(Exec(b, [Abort(r)]), r, f, pos')
  {
    var b := Begun(s, r, env, t, upto);
    OneStep(b, Abort(r));
  }

  lemma Begun(s: State, r: nat, env: Env, t: nat, upto: nat) returns (b: State)
    requires Enabled(s, BeginChunk(r, upto)) && s.db.pos == s.runs[r].pos && !s.db.blocked
    ensures b == AtWork(s, r, env, t, upto)
    ensures b == s.(runs := s.runs[r := s.runs[r].(txn := Some(TxnOf(s, BeginChunk(r, upto))))],
                    db := if env.weather(t) == RowGuard then s.db else env.during(t, s.db))
  {
    b := AtWork(s, r, env, t, upto);
  }

  /** The commit takes effect although its client has gone. */
  lemma LostIsSteps(b: State, r: nat, txn: Txn)
    requires WorkingAt(b, r) && b.runs[r].txn == Some(txn) && CanCommit(b.db, txn)
    ensures Legal(b, [LoseAck(r), OrphanCommit(|b.orphans|)])
    ensures var e := Exec(b, [LoseAck(r), OrphanCommit(|b.orphans|)]);
            e.db == Effect(b.ctx, b.db, txn) && e.runs == b.runs[r := b.runs[r].(txn := None)]
  {
    var l := Do(b, LoseAck(r));
    assert l.orphans[|b.orphans|] == txn;
    TwoSteps(b, LoseAck(r), OrphanCommit(|b.orphans|));
  }

  /** An attempt as the loop makes them is a chunk that may be begun. */
  lemma AttemptIsEnabled(s: State, z: Sizes, cfg: Settings, r: nat, f: File, a: Attempt)
    requires InFile(s, r) && s.runs[r].pending[0] == f && s.runs[r].phase == Open(a.lo)
    requires AttemptOk(z, cfg, Ops(s.ctx, f), a)
    ensures Enabled(s, BeginChunk(r, a.hi))
  {
    ModsCount(Ops(s.ctx, f)[a.lo..a.hi]);
  }

  // ----- what other runs do in between -----------------------------------------------------

  lemma {:induction false} HistoryEvolves(s: State, steps: seq<Step>)
    requires Inv(s) && Legal(s, steps)
    ensures Inv(Exec(s, steps)) && Evolves(s, Exec(s, steps))
    decreases |steps|
  {
    if steps != [] {
      var s' := Do(s, steps[0]);
      StepKeeps(s, steps[0]);
      StepEvolves(s, steps[0]);
      HistoryEvolves(s', steps[1..]);
      EvolvesIsTransitive(s, s', Exec(s, steps));
    }
  }

  /** A database of the past still fits the folder of today. */
  lemma StaysGood(a: State, w: State)
    requires DbOk(a) && DbOk(w) && Evolves(a, w)
    ensures Good(w, a.db)
  {
    PosStable(a, w, a.db.pos);
    assert Claimed(w.(db := a.db), a.db.pos) == Claimed(w, a.db.pos);
  }

  /** Any two databases of a history are related as the loop assumes of the other runs' moves: whatever
      steps lead from `a` to `b`, and on to the present `w`. */
  lemma OtherRunsKeepTheRely(s: State, first: seq<Step>, second: seq<Step>, third: seq<Step>)
    requires Init(s) && Legal(s, first) && Legal(Exec(s, first), second)
    requires Legal(Exec(Exec(s, first), second), third)
    ensures var a := Exec(s, first);
            var b := Exec(a, second);
            var w := Exec(b, third);
            Good(w, a.db) && Good(w, b.db) && Evolves(w.(db := a.db), w.(db := b.db)) && Rely(w, a.db, b.db)
  {
    InitHolds(s);
    HistoryEvolves(s, first);
    var a := Exec(s, first);
    HistoryEvolves(a, second);
    var b := Exec(a, second);
    HistoryEvolves(b, third);
    var w := Exec(b, third);
    EvolvesIsTransitive(a, b, w);
    StaysGood(a, w);
    StaysGood(b, w);
  }

  /** An environment that makes, at each attempt, one given move. */
  function Replaying(moves: nat -> (Db, Db)): (nat, Db) -> Db {
    (t: nat, d: Db) => if d == moves(t).0 then moves(t).1 else d
  }

  /** So every history gives an environment the loop is proved against. */
  lemma HistoryIsAnEnvironment(w: State, env: Env, before: nat -> (Db, Db), during: nat -> (Db, Db))
    requires forall t :: Rely(w, before(t).0, before(t).1) && Rely(w, during(t).0, during(t).1)
    ensures EnvOk(w, env.(before := Replaying(before), during := Replaying(during)))
    ensures forall t :: Replaying(before)(t, before(t).0) == before(t).1
    ensures forall t :: Replaying(during)(t, during(t).0) == during(t).1
  {
    var e := env.(before := Replaying(before), during := Replaying(during));
    forall t: nat, d: Db ensures Rely(w, d, e.before(t, d)) && Rely(w, d, e.during(t, d)) {
      assert Rely(w, before(t).0, before(t).1) && Rely(w, during(t).0, during(t).1);
      StayingIsAllowed(w, d);
    }
  }

  lemma StayingIsAllowed(w: State, d: Db)
    ensures Rely(w, d, d)
  {
  }

  // ----- the chunks a run packs ------------------------------------------------------------

  /** Where a run with these settings first cuts the chunk that starts at an offset. */
  function PackingCut(ctx: Context, z: Sizes, cfg: Settings, modBudget: nat, target: (nat, nat) -> int): Cut {
    (f: File, k: nat) =>
      var ops := Ops(ctx, f);
      if k < |ops| then Shrunk(z, ops, k, PackFrom(z, ops, k, modBudget, NetopCap(cfg, |ops|), k + 1), target) else k
  }

  /** What `FirstChunk` packs is this cut, and no other. */
  lemma FirstChunkIsTheCut(ctx: Context, z: Sizes, cfg: Settings, modBudget: nat, target: (nat, nat) -> int,
                           f: File, k: nat, packed: nat, hi: nat)
    requires k < |Ops(ctx, f)| && IsPack(z, Ops(ctx, f), k, modBudget, NetopCap(cfg, |Ops(ctx, f)|), packed)
    requires hi == Shrunk(z, Ops(ctx, f), k, packed, target)
    ensures hi == PackingCut(ctx, z, cfg, modBudget, target)(f, k)
  {
    PackIsUnique(z, Ops(ctx, f), k, modBudget, NetopCap(cfg, |Ops(ctx, f)|), packed);
  }

  /** The chunks a run packs are such as the engine can finish with, for any settings, any row sizes
      and any guess of the backstop. */
  lemma PackingIsACut(ctx: Context, z: Sizes, cfg: Settings, modBudget: nat, target: (nat, nat) -> int)
    requires modBudget <= DSQL_MAX_ROWS_PER_TXN
    ensures CutOk(ctx, PackingCut(ctx, z, cfg, modBudget, target))
  {
    var cut := PackingCut(ctx, z, cfg, modBudget, target);
    forall f: File, k: nat | k < |Ops(ctx, f)|
      ensures k < cut(f, k) <= |Ops(ctx, f)| && cut(f, k) - k <= 2997
    {
      PackFits(z, Ops(ctx, f), k, modBudget, NetopCap(cfg, |Ops(ctx, f)|), target);
    }
  }

  lemma PackFits(z: Sizes, ops: seq<NetOp>, k: nat, modBudget: nat, cap: nat, target: (nat, nat) -> int)
    requires k < |ops| && cap > 0 && modBudget <= DSQL_MAX_ROWS_PER_TXN
    ensures var hi := Shrunk(z, ops, k, PackFrom(z, ops, k, modBudget, cap, k + 1), target);
            k < hi <= |ops| && hi - k <= 2997
  {
    var packed := PackFrom(z, ops, k, modBudget, cap, k + 1);
    PackFromIsPack(z, ops, k, modBudget, cap, k + 1);
    ModsCount(ops[k..packed]);
  }
}
