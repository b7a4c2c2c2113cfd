/**
 What `apply_file` may do after each outcome of a chunk's transaction, as a policy on the log of
 attempts (the except clauses of its retry loop, scripts/glue_cdc_composite.py).
 */
module RetryPolicy {
  import opened Util
  import opened ChangeRows
  import opened NetOps
  import opened ApplyProtocol
  import opened ChunkSize
  import opened Packing

  const OCC_MAX_RETRIES := 5
  const SERVER_MAX_RETRIES := 6
  const MAX_CHUNK_RETRIES := 3

  /** How an attempt can fail: the error may match any of the classifiers, may surface although the
      commit took effect, and a dropped connection may fail to reconnect. */
  datatype Failure = Failure(schema: bool, occ: bool, timeout: bool, server: bool, pipe: bool,
                             committed: bool, reconnects: bool)

  datatype Verdict = Landed | Skipped | Yield | Refused | Error(f: Failure)

  datatype Ending = Done | Blocked | Yielded | SchemaChanged | Errored

  // ----- the log of attempts --------------------------------------------------------------

  /** The retries used up on the chunk at hand at one row budget. */
  datatype Tries = Tries(occ: nat, server: nat, pipe: nat) {
    predicate Within() { occ <= OCC_MAX_RETRIES && server <= SERVER_MAX_RETRIES && pipe <= MAX_CHUNK_RETRIES }
    function Total(): nat { occ + server + pipe }
  }

  const NO_TRIES := Tries(0, 0, 0)

  /** An attempt on record: the row budget it was packed for, the retries used before it, and how it
      went. */
  datatype Trial = Trial(attempt: Attempt, budget: nat, tries: Tries, outcome: Verdict)

  /** The attempt is well-formed, and packed for its budget: a first one before it was measured, a
      re-pack as it was sent. */
  ghost predicate TrialOk(z: Sizes, cfg: Settings, netops: seq<NetOp>, t: Trial) {
    && AttemptOk(z, cfg, netops, t.attempt)
    && IsPack(z, netops, t.attempt.lo, t.budget, NetopCap(cfg, |netops|),
              if t.attempt.first then t.attempt.packed else t.attempt.hi)
  }

  ghost predicate AllOk(z: Sizes, cfg: Settings, netops: seq<NetOp>, attempts: seq<Trial>) {
    forall i :: 0 <= i < |attempts| ==> TrialOk(z, cfg, netops, attempts[i])
  }

  lemma AllOkConcat(z: Sizes, cfg: Settings, netops: seq<NetOp>, a: seq<Trial>, b: seq<Trial>)
    requires AllOk(z, cfg, netops, a) && AllOk(z, cfg, netops, b)
    ensures AllOk(z, cfg, netops, a + b)
  {
    forall i | 0 <= i < |a + b| ensures TrialOk(z, cfg, netops, (a + b)[i]) {
      assert i >= |a| ==> (a + b)[i] == b[i - |a|];
    }
  }

  /** What that says of every attempt on record: its operations and the control rows fit the row limit,
      its estimate the byte budget, and a first attempt was measured. */
  lemma AllOkEach(z: Sizes, cfg: Settings, netops: seq<NetOp>, attempts: seq<Trial>)
    requires AllOk(z, cfg, netops, attempts)
    ensures forall i :: 0 <= i < |attempts| ==>
              var a := attempts[i].attempt;
              && a.lo < a.hi <= |netops| && a.hi - a.lo + 3 <= 3000
              && (a.hi - a.lo > 1 ==> CheapBytes(z, netops[a.lo..a.hi]) <= 10485760 - 209920)
              && (a.hi - a.lo > 1 && a.first ==> Measured(z, netops[a.lo..a.hi]) <= 10485760)
  {
    forall i | 0 <= i < |attempts|
      ensures var a := attempts[i].attempt; a.hi - a.lo + CONTROL_ROWS <= DSQL_MAX_ROWS_PER_TXN
    {
      var a := attempts[i].attempt;
      assert TrialOk(z, cfg, netops, attempts[i]);
      ModsCount(netops[a.lo..a.hi]);
    }
  }

  /** The last `k` attempts were all at this chunk. */
  predicate Repeats(attempts: seq<Trial>, k: nat, lo: nat, hi: nat) {
    k <= |attempts|
    && forall i :: |attempts| - k <= i < |attempts| ==> attempts[i].attempt.lo == lo && attempts[i].attempt.hi == hi
  }

  predicate Tried(attempts: seq<Trial>, k: nat) {
    attempts != [] && Repeats(attempts, k, attempts[|attempts| - 1].attempt.lo, attempts[|attempts| - 1].attempt.hi)
  }

  lemma RepeatsLater(before: seq<Trial>, attempts: seq<Trial>, k: nat, fewer: nat, lo: nat, hi: nat)
    requires Repeats(attempts, k, lo, hi) && fewer <= k
    ensures Repeats(before + attempts, fewer, lo, hi)
  {
    var all := before + attempts;
    forall i | |all| - fewer <= i < |all| ensures all[i].attempt.lo == lo && all[i].attempt.hi == hi {
      assert all[i] == attempts[i - |before|];
    }
  }

  /** Why a file ends early: a chunk is given up only after its retries are used up. */
  ghost predicate Justified(ending: Ending, last: Verdict, attempts: seq<Trial>) {
    match ending
    case Done => true
    case Yielded => last.Yield?
    case SchemaChanged => last.Error? && last.f.schema
    case Errored => last.Error? && !last.f.schema && last.f.pipe && !last.f.reconnects
    case Blocked =>
      || last.Refused?
      || (&& last.Error? && !last.f.schema
          && (last.f.occ ==> Tried(attempts, 6))
          && (last.f.server ==> Tried(attempts, 7))
          && (last.f.pipe ==> Tried(attempts, 4)))
  }

  // ----- what may follow an attempt -------------------------------------------------------

  /** The error is a commit conflict, and such retries are left. */
  predicate OccLeft(t: Trial) { t.outcome.Error? && t.outcome.f.occ && t.tries.occ < 5 }

  /** The transaction ran out of time, and the automatic mode can still make it smaller. */
  predicate TooSlow(cfg: Settings, t: Trial) {
    t.outcome.Error? && t.outcome.f.timeout && cfg.fixedChunkSize <= 0 && t.budget > MinModBudget(cfg)
  }

  predicate ServerLeft(t: Trial) { t.outcome.Error? && t.outcome.f.server && t.tries.server < 6 }

  predicate PipeLeft(t: Trial) { t.outcome.Error? && t.outcome.f.pipe && t.tries.pipe < 3 }

  predicate Succeeds(t: Trial) { t.outcome.Landed? || t.outcome.Skipped? }

  /** How the file ends after its last attempt. */
  predicate EndsAs(cfg: Settings, t: Trial, ending: Ending) {
    && (ending.Done? <==> Succeeds(t))
    && (ending.Yielded? <==> t.outcome.Yield?)
    && (ending.SchemaChanged? <==> t.outcome.Error? && t.outcome.f.schema)
    && (t.outcome.Error? && !t.outcome.f.schema ==> !OccLeft(t) && !TooSlow(cfg, t) && !ServerLeft(t))
    && (ending.Errored? <==> t.outcome.Error? && !t.outcome.f.schema && PipeLeft(t))
    && (ending.Errored? ==> !t.outcome.f.reconnects)
  }

  predicate Again(t: Trial, next: Trial, tries: Tries) {
    next.attempt == t.attempt && next.budget == t.budget && next.tries == tries
  }

  /** The same operations in a smaller chunk, with fresh retries. */
  predicate Smaller(cfg: Settings, t: Trial, next: Trial) {
    && next.attempt.lo == t.attempt.lo && !next.attempt.first && next.tries == NO_TRIES
    && next.attempt.packed == t.attempt.packed && next.attempt.piece == t.attempt.piece
    && MinModBudget(cfg) <= next.budget < t.budget
  }

  /** The row budget a landed chunk leaves to the next one. */
  predicate SlowOrSame(cfg: Settings, t: Trial, modBudget: nat) {
    && modBudget <= t.budget
    && (modBudget < t.budget ==>
          && cfg.fixedChunkSize <= 0 && modBudget >= MinModBudget(cfg)
          && t.attempt.hi - t.attempt.lo + 1 >= t.budget - CDC_MODS_PER_INSERT)
  }

  /** The next chunk, at the same row budget, or at a lower one after a full and slow chunk. */
  predicate NewChunk(cfg: Settings, t: Trial, next: Trial) {
    && next.attempt.lo == t.attempt.hi && next.attempt.first && next.tries == NO_TRIES
    && SlowOrSame(cfg, t, next.budget)
  }

  /** The attempt that follows: another chunk after a success, otherwise the kind of retry the error
      calls for, in this order. */
  predicate Next(cfg: Settings, t: Trial, next: Trial) {
    && (Succeeds(t) ==> NewChunk(cfg, t, next))
    && (!Succeeds(t) ==> t.outcome.Error? && !t.outcome.f.schema)
    && (OccLeft(t) ==> Again(t, next, t.tries.(occ := t.tries.occ + 1)))
    && (!OccLeft(t) && TooSlow(cfg, t) ==> Smaller(cfg, t, next))
    && (!OccLeft(t) && !TooSlow(cfg, t) && ServerLeft(t) ==> Again(t, next, t.tries.(server := t.tries.server + 1)))
    && (!Succeeds(t) && !OccLeft(t) && !TooSlow(cfg, t) && !ServerLeft(t) ==>
          PipeLeft(t) && t.outcome.f.reconnects && Again(t, next, t.tries.(pipe := t.tries.pipe + 1)))
  }

  predicate Linked(cfg: Settings, attempts: seq<Trial>, k: nat)
    requires 0 < k < |attempts|
  {
    Next(cfg, attempts[k - 1], attempts[k])
  }

  /** Every attempt is followed by the right one. */
  ghost predicate Policy(cfg: Settings, attempts: seq<Trial>) {
    forall k :: 0 < k < |attempts| ==> Linked(cfg, attempts, k)
  }

  lemma PolicyConcat(cfg: Settings, a: seq<Trial>, b: seq<Trial>)
    requires Policy(cfg, a) && Policy(cfg, b)
    requires a != [] && b != [] ==> Next(cfg, a[|a| - 1], b[0])
    ensures Policy(cfg, a + b)
  {
    forall k | 0 < k < |a + b| ensures Linked(cfg, a + b, k) {
      if k < |a| {
        assert Linked(cfg, a, k);
      } else if k > |a| {
        assert Linked(cfg, b, k - |a|);
      }
    }
  }

  /** A chunk that ran out of time is packed again, smaller, as long as the automatic mode can: it is
      never the last attempt, so it is never given up. */
  lemma TimeoutIsPackedAgain(cfg: Settings, attempts: seq<Trial>, ending: Ending, k: nat)
    requires Policy(cfg, attempts) && k < |attempts| && EndsAs(cfg, attempts[|attempts| - 1], ending)
    requires attempts[k].outcome.Error? && attempts[k].outcome.f.timeout && !attempts[k].outcome.f.schema
    requires cfg.fixedChunkSize <= 0 && attempts[k].budget > MinModBudget(cfg)
    requires attempts[k].outcome.f.occ ==> attempts[k].tries.occ >= OCC_MAX_RETRIES
    ensures k + 1 < |attempts| && attempts[k + 1].attempt.lo == attempts[k].attempt.lo
    ensures attempts[k + 1].budget < attempts[k].budget
  {
    if k + 1 < |attempts| {
      assert Linked(cfg, attempts, k + 1);
    }
  }

  /** When a file is blocked, exactly: its last attempt was refused, or failed with an error that is
      not a schema change, has no retry left of any kind it matches, and is no timeout that the
      automatic mode can still answer with a smaller chunk. */
  lemma BlockedExactly(cfg: Settings, attempts: seq<Trial>, ending: Ending)
    requires attempts != [] && EndsAs(cfg, attempts[|attempts| - 1], ending)
    ensures var t := attempts[|attempts| - 1];
            ending.Blocked? <==>
            || t.outcome.Refused?
            || (&& t.outcome.Error? && !t.outcome.f.schema
                && (t.outcome.f.occ ==> t.tries.occ >= OCC_MAX_RETRIES)
                && (t.outcome.f.timeout ==> cfg.fixedChunkSize > 0 || t.budget <= MinModBudget(cfg))
                && (t.outcome.f.server ==> t.tries.server >= SERVER_MAX_RETRIES)
                && (t.outcome.f.pipe ==> t.tries.pipe >= MAX_CHUNK_RETRIES))
  {
  }

  /** The log begins with a first attempt at an offset. */
  predicate BeginsAt(attempts: seq<Trial>, idx: nat, budget: nat) {
    && attempts != [] && attempts[0].attempt.lo == idx && attempts[0].attempt.first
    && attempts[0].budget == budget && attempts[0].tries == NO_TRIES
  }

  /** The log of a chunk, or of a file, from its first attempt to its end. */
  ghost predicate Logged(cfg: Settings, idx: nat, budget: nat, ending: Ending, last: Verdict, attempts: seq<Trial>) {
    && BeginsAt(attempts, idx, budget) && Policy(cfg, attempts)
    && attempts[|attempts| - 1].outcome == last && EndsAs(cfg, attempts[|attempts| - 1], ending)
  }
}
