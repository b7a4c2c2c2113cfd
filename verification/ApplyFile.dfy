/**
 `apply_file` itself: the loop over a file's chunks and the transaction of each attempt
 (scripts/glue_cdc_composite.py).

 The loop runs against an environment that may do anything the protocol allows at any moment:
 other runs move the shared row, and every attempt may fail in any way, before or after its
 commit took effect.
 */
module ApplyFile {
  import opened Util
  import opened ChangeRows
  import opened NetOps
  import opened ApplyProtocol
  import opened ApplySafety
  import opened ChunkSize
  import opened Packing
  import opened RetryPolicy
  import opened RetryLoop

  // ----- the environment -------------------------------------------------------------------

  datatype Weather = Clear | RowGuard | Fails(f: Failure)

  /** What other runs do to the database before and during the attempt, how it goes, and the
      timing numbers that steer the row budget. */
  datatype Env = Env(before: (nat, Db) -> Db, during: (nat, Db) -> Db, weather: nat -> Weather,
                     byteTarget: (nat, nat) -> int, failTarget: nat -> int, slow: nat -> bool, slowTarget: nat -> int)

  ghost predicate Good(w: State, d: Db) { DbOk(w.(db := d)) }

  /** What other runs may do between two of ours. */
  ghost predicate Rely(w: State, a: Db, b: Db) {
    Good(w, a) ==> Good(w, b) && Evolves(w.(db := a), w.(db := b))
  }

  ghost predicate EnvOk(w: State, env: Env) {
    && (forall t: nat, d: Db :: Rely(w, d, env.before(t, d)))
    && (forall t: nat, d: Db :: Rely(w, d, env.during(t, d)))
  }

  /** Consecutive pieces from `lo` to `hi`. */
  predicate Tiles(chunks: seq<(nat, nat)>, lo: nat, hi: nat) {
    if chunks == [] then lo == hi
    else
      var last := chunks[|chunks| - 1];
      last.1 == hi && last.0 < last.1 && Tiles(chunks[..|chunks| - 1], lo, last.0)
  }

  // ----- one table's session ---------------------------------------------------------------

  /** The commit found another version of the row. */
  const LOST_RACE := Failure(false, true, false, false, false, false, false)

  /** What an attempt past the fence leaves: the database, this run's checkpoint, and the outcome. */
  function SentOn(ctx: Context, env: Env, t: nat, db: Db, pos: Pos, f: File, upto: nat): (Db, Pos, Verdict) {
    var goal := Pos(Some(f.name), upto, pos.lastDone);
    if env.weather(t) == RowGuard then (db, pos, Refused)
    else
      var db' := env.during(t, db);
      var commits := db'.version == db.version;
      var after := if commits && (env.weather(t).Clear? || env.weather(t).f.committed)
                   then Effect(ctx, db', Txn(db, goal, ChunkWork(f, upto))) else db';
      if env.weather(t).Fails? then (after, pos, Error(env.weather(t).f))
      else if !commits then (after, pos, Error(LOST_RACE))
      else (after, goal, Landed)
  }

  /** What a whole attempt leaves, the fence first. */
  function TriedOn(ctx: Context, env: Env, t: nat, db: Db, pos: Pos, f: File, upto: nat): (Db, Pos, Verdict) {
    var db', goal := env.before(t, db), Pos(Some(f.name), upto, pos.lastDone);
    match CheckPosition(db', pos, Some(goal))
    case Moved => (db', pos, Yield)
    case Already => (db', goal, Skipped)
    case Proceed => SentOn(ctx, env, t, db', pos, f, upto)
  }

  // ----- what an attempt does, field by field ----------------------------------------------

  /** The commit takes effect when nobody has changed the row meanwhile and no error kept it from the
      database: then the checkpoint is at the end of the chunk, and otherwise nothing is changed. */
  ghost predicate CommitMeans(env: Env, t: nat, before: Db, lastDone: Option<Name>, f: File, upto: nat, after: Db) {
    var met := env.during(t, before);
    var kept := env.weather(t).Clear? || (env.weather(t).Fails? && env.weather(t).f.committed);
    if met.version == before.version && kept then
      && after.pos == Pos(Some(f.name), upto, lastDone) && after.version == met.version + 1 && !after.blocked
      && after.inserts == met.inserts && after.deletes == met.deletes
    else after == met
  }

  /** The error of a lost race is an optimistic-concurrency one and none other, and nothing is committed. */
  predicate LostRace(v: Verdict) {
    && v.Error? && v.f.occ && !v.f.schema && !v.f.timeout && !v.f.server && !v.f.pipe && !v.f.committed
  }

  /** What the run makes of the row it reads first: it goes on only where it left the row, skips a chunk
      that is committed, and yields to a block or to another checkpoint, changing nothing. */
  predicate FenceSays(met: Db, pos: Pos, goal: Pos, after: Db, v: Verdict) {
    && (v == Yield <==> met.blocked || (met.pos != pos && met.pos != goal))
    && (v == Skipped <==> !met.blocked && met.pos != pos && met.pos == goal)
    && (v == Yield || v == Skipped ==> after == met)
  }

  /** The table's session during a cycle: the shared database, this run's `pos_box`, and a clock
      that counts attempts. */
  class Session {
    var db: Db
    var pos: Pos
    var clock: nat

    /** The run is inside file `f`, which it reached at offset `pos.offset`. */
    ghost predicate Inside(w: State, f: File)
      reads this
    {
      && Good(w, db) && PosOk(w.ctx, w.folder, w.listed, pos) && AtMost(pos, db.pos)
      && var d := DoneCount(w.folder, pos.lastDone);
      && d < w.listed && w.folder[d] == f && Readable(w.ctx, f)
      && f.name in db.ledger
    }

    /** Past the fence: the statements and the commit, which takes effect only if nobody has
        changed the row, and may do so although an error comes back. */
    method Send(w: State, env: Env, f: File, upto: nat, t: nat, ghost since: Db) returns (v: Verdict)
      requires EnvOk(w, env) && Inside(w, f) && pos.offset < upto <= |Ops(w.ctx, f)|
      requires db.pos == pos && !db.blocked && Evolves(w.(db := since), w.(db := db))
      modifies this`db, this`pos
      ensures Inside(w, f) && Evolves(w.(db := since), w.(db := db))
      ensures (db, pos, v) == SentOn(w.ctx, env, t, old(db), old(pos), f, upto)
      ensures !v.Skipped? && !v.Yield?
      ensures v.Landed? ==> pos == Pos(Some(f.name), upto, old(pos).lastDone) && db.pos == pos
      ensures !v.Landed? ==> pos == old(pos)
      ensures env.weather(t).RowGuard? ==> db == old(db) && v == Refused
      ensures !env.weather(t).RowGuard? ==> CommitMeans(env, t, old(db), pos.lastDone, f, upto, db)
      ensures env.weather(t).Fails? ==> v == Error(env.weather(t).f)
      ensures env.weather(t).Clear? ==>
                if env.during(t, old(db)).version == old(db).version then v == Landed else LostRace(v)
    {
      var goal, snap := Pos(Some(f.name), upto, pos.lastDone), db;
      var txn := Txn(snap, goal, ChunkWork(f, upto));
      ghost var w1, start := w.(db := db), w.(db := since);
      assert TxnOk(w1, txn);
      if env.weather(t) == RowGuard {
        return Refused;
      }
      assert Rely(w, db, env.during(t, db));
      db := env.during(t, db);
      ghost var w2 := w.(db := db);
      TxnStable(w1, w2, txn);
      EvolvesIsTransitive(start, w1, w2);
      AtMostIsTransitive(pos, w1.db.pos, w2.db.pos);
      var commits := db.version == snap.version;
      if commits && (env.weather(t).Clear? || env.weather(t).f.committed) {
        LandsAtGoal(w, w2, txn);
        db := Effect(w.ctx, db, txn);
        EvolvesIsTransitive(start, w2, w.(db := db));
      }
      if env.weather(t).Fails? {
        return Error(env.weather(t).f);
      }
      if !commits {
        return Error(LOST_RACE);
      }
      pos := goal;
      return Landed;
    }

    /** One pass of the retry loop's body: fence, statements, commit. */
    method TryChunk(w: State, env: Env, f: File, upto: nat, ghost since: Db) returns (v: Verdict)
      requires EnvOk(w, env) && Inside(w, f) && pos.offset < upto <= |Ops(w.ctx, f)|
      requires Evolves(w.(db := since), w.(db := db))
      modifies this
      ensures Inside(w, f) && clock == old(clock) + 1
      ensures (db, pos, v) == TriedOn(w.ctx, env, old(clock), old(db), old(pos), f, upto)
      ensures Evolves(w.(db := since), w.(db := db))
      ensures v.Landed? || v.Skipped? ==> pos == Pos(Some(f.name), upto, old(pos).lastDone)
      ensures v.Landed? || v.Skipped? ==> db.pos == pos
      ensures !(v.Landed? || v.Skipped?) ==> pos == old(pos)
      ensures v.Yield? ==> db.blocked || (db.pos != pos && db.pos != Pos(Some(f.name), upto, pos.lastDone))
      ensures FenceSays(env.before(old(clock), old(db)), old(pos), Pos(Some(f.name), upto, old(pos).lastDone), db, v)
    {
      var t := clock;
      clock := clock + 1;
      var goal := Pos(Some(f.name), upto, pos.lastDone);
      ghost var w0, start := w.(db := db), w.(db := since);
      assert Rely(w, db, env.before(t, db));
      db := env.before(t, db);
      ghost var w1 := w.(db := db);
      EvolvesIsTransitive(start, w0, w1);
      assert AtMost(pos, db.pos) by { AtMostIsTransitive(pos, w0.db.pos, db.pos); }
      match CheckPosition(db, pos, Some(goal)) {
        case Moved => return Yield;
        case Already =>
          pos := goal;
          return Skipped;
        case Proceed =>
      }
      v := Send(w, env, f, upto, t, since);
    }

    /** One turn of the retry loop: an attempt, and what is done about its outcome. */
    method Turn(w: State, z: Sizes, cfg: Settings, env: Env, f: File, idx: nat, ghost budget: nat, p: Progress,
                ghost since: Db)
      returns (last: Verdict, stop: Option<Ending>, q: Progress)
      requires EnvOk(w, env) && Inside(w, f) && Evolves(w.(db := since), w.(db := db)) && idx == pos.offset
      requires Running(z, cfg, Ops(w.ctx, f), idx, budget, p)
      modifies this
      ensures Inside(w, f) && Evolves(w.(db := since), w.(db := db)) && clock == old(clock) + 1
      ensures |q.attempts| == |p.attempts| + 1
      ensures stop == Some(Done) ==> pos == Pos(Some(f.name), q.hi, old(pos).lastDone) && db.pos == pos
      ensures stop != Some(Done) ==> pos == old(pos)
      ensures stop.Some? ==> Over(z, cfg, Ops(w.ctx, f), idx, budget, stop.value, last, q)
      ensures stop.None? ==> Running(z, cfg, Ops(w.ctx, f), idx, budget, q) && Sooner(q, p)
    {
      last := TryChunk(w, env, f, p.hi, since);
      stop, q := Respond(z, cfg, Ops(w.ctx, f), idx, budget, p, last, env.failTarget(clock));
    }

    /** The retry loop around one chunk.  The timeout branch packs a smaller chunk and starts
        the retries afresh, so what decreases is the row budget first, then the retries left. */
    method RunChunk(w: State, z: Sizes, cfg: Settings, env: Env, f: File, packed: nat, piece: nat, budget: nat,
                    ghost since: Db)
      returns (ending: Ending, last: Verdict, p: Progress)
      requires EnvOk(w, env) && Inside(w, f) && Evolves(w.(db := since), w.(db := db))
      requires MinModBudget(cfg) <= budget <= DSQL_MAX_ROWS_PER_TXN
      requires IsPack(z, Ops(w.ctx, f), pos.offset, budget, NetopCap(cfg, |Ops(w.ctx, f)|), packed)
      requires AttemptOk(z, cfg, Ops(w.ctx, f), Attempt(pos.offset, piece, true, packed, piece))
      modifies this
      ensures Inside(w, f) && Evolves(w.(db := since), w.(db := db))
      ensures ending.Done? ==> pos == Pos(Some(f.name), p.hi, old(pos).lastDone) && db.pos == pos
      ensures !ending.Done? ==> pos == old(pos)
      ensures Over(z, cfg, Ops(w.ctx, f), old(pos).offset, budget, ending, last, p)
      ensures |p.attempts| == clock - old(clock)
    {
      var idx := pos.offset;
      p := Progress(packed, piece, piece, true, budget, NO_TRIES, []);
      ChunkStarts(z, cfg, Ops(w.ctx, f), idx, budget, p);
      while true
        invariant Inside(w, f) && Evolves(w.(db := since), w.(db := db)) && pos == old(pos)
        invariant Running(z, cfg, Ops(w.ctx, f), idx, budget, p)
        invariant |p.attempts| == clock - old(clock)
        decreases p.modBudget, MAX_TRIES - p.tries.Total()
      {
        var stop: Option<Ending>;
        last, stop, p := Turn(w, z, cfg, env, f, idx, budget, p, since);
        if stop.Some? {
          return stop.value, last, p;
        }
      }
    }

    /** One chunk from its pack to its end, and the row budget it leaves behind. */
    method NextChunk(w: State, z: Sizes, cfg: Settings, env: Env, f: File, budget: nat, ghost since: Db)
      returns (ending: Ending, last: Verdict, hi: nat, modBudget: nat, tried: seq<Trial>)
      requires EnvOk(w, env) && Inside(w, f) && Evolves(w.(db := since), w.(db := db))
      requires pos.offset < |Ops(w.ctx, f)| && MinModBudget(cfg) <= budget <= DSQL_MAX_ROWS_PER_TXN
      modifies this
      ensures Inside(w, f) && Evolves(w.(db := since), w.(db := db))
      ensures old(pos).offset < hi <= |Ops(w.ctx, f)| && MinModBudget(cfg) <= modBudget <= budget
      ensures ending.Done? ==> pos == Pos(Some(f.name), hi, old(pos).lastDone) && db.pos == pos
      ensures !ending.Done? ==> pos == old(pos)
      ensures AllOk(z, cfg, Ops(w.ctx, f), tried) && Justified(ending, last, tried)
      ensures tried != [] && tried[|tried| - 1].attempt.lo == old(pos).offset && tried[|tried| - 1].attempt.hi == hi
      ensures Logged(cfg, old(pos).offset, budget, ending, last, tried)
      ensures ending.Done? ==> SlowOrSame(cfg, tried[|tried| - 1], modBudget)
      ensures |tried| == clock - old(clock) <= 15 * (1 + budget - modBudget)
    {
      var netops, idx := Ops(w.ctx, f), pos.offset;
      var packed, piece := FirstChunk(z, cfg, netops, idx, budget, env.byteTarget);
      var p: Progress;
      ending, last, p := RunChunk(w, z, cfg, env, f, packed, piece, budget, since);
      hi, modBudget, tried := p.hi, p.modBudget, p.attempts;
      if ending.Done? {
        modBudget := NextBudget(cfg, netops, tried[|tried| - 1], env.slow(clock), env.slowTarget(clock));
      }
    }

    /** `apply_file`: pack a chunk, run it until it lands or is given up, go on with the next. */
    method ApplyFile(w: State, z: Sizes, cfg: Settings, env: Env, f: File)
      returns (ending: Ending, chunks: seq<(nat, nat)>, attempts: seq<Trial>, last: Verdict)
      requires EnvOk(w, env) && Inside(w, f)
      modifies this
      ensures Inside(w, f) && Evolves(w.(db := old(db)), w.(db := db))
      ensures pos.lastDone == old(pos).lastDone && Tiles(chunks, old(pos).offset, pos.offset)
      ensures pos.offset == old(pos).offset ==> pos == old(pos)
      ensures ending.Done? ==> pos.offset == |Ops(w.ctx, f)|
      ensures ending.Done? && pos != old(pos) ==> db.pos == pos
      ensures AllOk(z, cfg, Ops(w.ctx, f), attempts)
      ensures forall c :: c in chunks ==> Attempted(attempts, c)
      ensures |attempts| == clock - old(clock)
              <= 15 * (|Ops(w.ctx, f)| - old(pos).offset + 3000 - MinModBudget(cfg))
      ensures Justified(ending, last, attempts)
      ensures attempts == [] ==> ending.Done? && pos == old(pos)
      ensures attempts != [] ==> Logged(cfg, old(pos).offset, 3000, ending, last, attempts)
    {
      var netops := Ops(w.ctx, f);
      var n := |netops|;
      var modBudget: nat := DSQL_MAX_ROWS_PER_TXN;
      var start: nat, idx: nat := pos.offset, pos.offset;
      chunks, attempts, last := [], [], Landed;
      while idx < n
        invariant start <= idx <= n && idx == pos.offset
        invariant MinModBudget(cfg) <= modBudget <= DSQL_MAX_ROWS_PER_TXN
        invariant Inside(w, f) && Evolves(w.(db := old(db)), w.(db := db))
        invariant pos.lastDone == old(pos).lastDone && Tiles(chunks, start, idx)
        invariant if idx == start then pos == old(pos) else db.pos == pos
        invariant AllOk(z, cfg, netops, attempts)
        invariant forall c :: c in chunks ==> Attempted(attempts, c)
        invariant LoggedSoFar(cfg, start, idx, modBudget, last, attempts)
        invariant |attempts| == clock - old(clock) <= 15 * (idx - start + DSQL_MAX_ROWS_PER_TXN - modBudget)
        decreases n - idx
      {
        ghost var soFar, budget := attempts, modBudget;
        var hi: nat, tried: seq<Trial>;
        ending, last, hi, modBudget, tried := NextChunk(w, z, cfg, env, f, modBudget, old(db));
        attempts := attempts + tried;
        AllOkConcat(z, cfg, netops, soFar, tried);
        LogGrows(cfg, start, idx, budget, soFar, ending, last, tried, modBudget);
        if !ending.Done? {
          StillAttempted(chunks, soFar, tried);
          JustifiedLater(ending, last, soFar, tried);
          return;
        }
        Extended(chunks, soFar, tried, start, idx, hi);
        chunks := chunks + [(idx, hi)];
        idx := hi;
      }
      ending := Done;
    }
  }

  /** The row budget after a landed chunk. */
  method NextBudget(cfg: Settings, netops: seq<NetOp>, t: Trial, slow: bool, target: int) returns (modBudget: nat)
    requires MinModBudget(cfg) <= t.budget && t.attempt.lo <= t.attempt.hi <= |netops|
    ensures MinModBudget(cfg) <= modBudget && SlowOrSame(cfg, t, modBudget)
    ensures modBudget < t.budget <==>
            && cfg.fixedChunkSize <= 0 && slow && t.budget > MinModBudget(cfg)
            && t.attempt.hi - t.attempt.lo + 1 >= t.budget - CDC_MODS_PER_INSERT
  {
    var chunkMods := 1 + (ModsOf(netops[t.attempt.lo..t.attempt.hi]) - CONTROL_ROWS);
    ModsCount(netops[t.attempt.lo..t.attempt.hi]);
    modBudget := SlowStep(cfg, t.budget, chunkMods, slow, target);
  }

  /** The log of a file whose chunks all landed so far. */
  ghost predicate LoggedSoFar(cfg: Settings, start: nat, idx: nat, modBudget: nat, last: Verdict,
                              attempts: seq<Trial>) {
    && (attempts == [] ==> idx == start && modBudget == DSQL_MAX_ROWS_PER_TXN)
    && (attempts != [] ==>
          && Logged(cfg, start, DSQL_MAX_ROWS_PER_TXN, Done, last, attempts)
          && attempts[|attempts| - 1].attempt.hi == idx && SlowOrSame(cfg, attempts[|attempts| - 1], modBudget))
  }

  lemma LogGrows(cfg: Settings, start: nat, idx: nat, budget: nat, before: seq<Trial>, ending: Ending, last: Verdict,
                 tried: seq<Trial>, modBudget: nat)
    requires exists was :: LoggedSoFar(cfg, start, idx, budget, was, before)
    requires Logged(cfg, idx, budget, ending, last, tried)
    ensures Logged(cfg, start, DSQL_MAX_ROWS_PER_TXN, ending, last, before + tried)
    ensures (before + tried)[|before + tried| - 1] == tried[|tried| - 1]
  {
    var was :| LoggedSoFar(cfg, start, idx, budget, was, before);
    PolicyConcat(cfg, before, tried);
  }

  /** One more chunk, just tried. */
  lemma Extended(chunks: seq<(nat, nat)>, before: seq<Trial>, tried: seq<Trial>, start: nat, idx: nat, hi: nat)
    requires Tiles(chunks, start, idx) && idx < hi
    requires forall c :: c in chunks ==> Attempted(before, c)
    requires tried != [] && tried[|tried| - 1].attempt.lo == idx && tried[|tried| - 1].attempt.hi == hi
    ensures Tiles(chunks + [(idx, hi)], start, hi)
    ensures forall c :: c in chunks + [(idx, hi)] ==> Attempted(before + tried, c)
  {
    var chunks', all := chunks + [(idx, hi)], before + tried;
    assert chunks'[..|chunks|] == chunks;
    StillAttempted(chunks, before, tried);
    assert all[|all| - 1] == tried[|tried| - 1];
    assert Attempted(all, (idx, hi));
  }

  lemma StillAttempted(chunks: seq<(nat, nat)>, before: seq<Trial>, tried: seq<Trial>)
    requires forall c :: c in chunks ==> Attempted(before, c)
    ensures forall c :: c in chunks ==> Attempted(before + tried, c)
  {
    forall c | c in chunks ensures Attempted(before + tried, c) {
      var i :| 0 <= i < |before| && before[i].attempt.lo == c.0 && before[i].attempt.hi == c.1;
      assert (before + tried)[i] == before[i];
    }
  }

  predicate Attempted(attempts: seq<Trial>, c: (nat, nat)) {
    exists i :: 0 <= i < |attempts| && attempts[i].attempt.lo == c.0 && attempts[i].attempt.hi == c.1
  }

  lemma JustifiedLater(ending: Ending, last: Verdict, before: seq<Trial>, tried: seq<Trial>)
    requires Justified(ending, last, tried)
    ensures Justified(ending, last, before + tried)
  {
    if tried != [] {
      var lo, hi := tried[|tried| - 1].attempt.lo, tried[|tried| - 1].attempt.hi;
      forall k: nat | Tried(tried, k) ensures Tried(before + tried, k) {
        RepeatsLater(before, tried, k, k, lo, hi);
      }
    }
  }

  lemma LandsAtGoal(w: State, s: State, t: Txn)
    requires s == w.(db := s.db) && DbOk(s) && TxnOk(s, t) && CanCommit(s.db, t)
    ensures var d := Effect(s.ctx, s.db, t);
            Good(w, d) && Evolves(s, w.(db := d)) && d.pos == t.goal && PosOk(s.ctx, s.folder, s.listed, t.goal)
    ensures !t.work.IdleWork? ==> Less(t.snap.pos, t.goal)
  {
    InstallKeepsTable(s, t);
    GoalIsNext(s, t.snap.pos, t.goal, t.work);
    SameWorld(Installed(s, t), w.(db := Effect(s.ctx, s.db, t)));
  }

  lemma SameWorld(a: State, b: State)
    requires DbOk(a) && b.ctx == a.ctx && b.baseline == a.baseline && b.folder == a.folder && b.listed == a.listed
    requires b.db == a.db
    ensures DbOk(b)
  {
  }

  lemma EvolvesIsTransitive(a: State, b: State, c: State)
    requires Evolves(a, b) && Evolves(b, c)
    ensures Evolves(a, c)
  {
    AtMostIsTransitive(a.db.pos, b.db.pos, c.db.pos);
    assert c.folder[..a.listed] == c.folder[..b.listed][..a.listed];
    assert b.folder[..a.listed] == b.folder[..b.listed][..a.listed];
  }
}
