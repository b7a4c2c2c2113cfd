/**
 The retry loop around one chunk (`apply_file` of scripts/glue_cdc_composite.py): how it reacts to an
 outcome, and that its log keeps the policy.
 */
module RetryLoop {
  import opened Util
  import opened ChangeRows
  import opened NetOps
  import opened ApplyProtocol
  import opened ChunkSize
  import opened Packing
  import opened RetryPolicy

  /** The retries left to one chunk at one row budget, all kinds together. */
  const MAX_TRIES := OCC_MAX_RETRIES + SERVER_MAX_RETRIES + MAX_CHUNK_RETRIES

  datatype Reaction = Stop(ending: Ending) | Retry(tries: Tries) | Repack

  /** The except clauses of the retry loop, in their order. */
  function React(cfg: Settings, v: Verdict, t: Tries, modBudget: nat): (r: Reaction)
    requires !v.Landed? && !v.Skipped? && t.Within()
    ensures r.Retry? ==> r.tries.Within() && r.tries.Total() == t.Total() + 1
    ensures r.Repack? ==> cfg.fixedChunkSize <= 0 && modBudget > MinModBudget(cfg)
    ensures v.Error? && v.f.timeout && !v.f.schema && cfg.fixedChunkSize <= 0 && modBudget > MinModBudget(cfg) ==>
              !r.Stop? && (r.Repack? <==> !(v.f.occ && t.occ < OCC_MAX_RETRIES))
    ensures r.Stop? ==> !r.ending.Done?
    ensures r.Stop? && r.ending.Blocked? && v.Error? ==>
              && (v.f.occ ==> t.occ == OCC_MAX_RETRIES)
              && (v.f.server ==> t.server == SERVER_MAX_RETRIES)
              && (v.f.pipe ==> t.pipe == MAX_CHUNK_RETRIES)
  {
    match v
    case Yield => Stop(Yielded)
    case Refused => Stop(Blocked)
    case Error(e) =>
      if e.schema then Stop(SchemaChanged)
      else if e.occ && t.occ < OCC_MAX_RETRIES then Retry(t.(occ := t.occ + 1))
      else if cfg.fixedChunkSize <= 0 && e.timeout && modBudget > MinModBudget(cfg) then Repack
      else if e.server && t.server < SERVER_MAX_RETRIES then Retry(t.(server := t.server + 1))
      else if e.pipe && t.pipe < MAX_CHUNK_RETRIES then
        if e.reconnects then Retry(t.(pipe := t.pipe + 1)) else Stop(Errored)
      else Stop(Blocked)
  }

  // ----- the reactions are the policy's ---------------------------------------------------

  lemma RetryIsNext(cfg: Settings, t: Trial, next: Trial)
    requires !Succeeds(t) && t.tries.Within() && React(cfg, t.outcome, t.tries, t.budget) == Retry(next.tries)
    requires next.attempt == t.attempt && next.budget == t.budget
    ensures Next(cfg, t, next)
  {
  }

  lemma RepackIsNext(cfg: Settings, t: Trial, next: Trial)
    requires !Succeeds(t) && t.tries.Within() && React(cfg, t.outcome, t.tries, t.budget).Repack?
    requires Smaller(cfg, t, next)
    ensures Next(cfg, t, next)
  {
  }

  lemma StopIsTheEnd(cfg: Settings, t: Trial, ending: Ending)
    requires t.tries.Within()
    requires if Succeeds(t) then ending == Done else React(cfg, t.outcome, t.tries, t.budget) == Stop(ending)
    ensures EndsAs(cfg, t, ending)
  {
  }

  lemma StopIsJustified(cfg: Settings, v: Verdict, t: Tries, modBudget: nat, attempts: seq<Trial>, lo: nat, hi: nat)
    requires !v.Landed? && !v.Skipped? && t.Within() && React(cfg, v, t, modBudget).Stop?
    requires Repeats(attempts, t.Total() + 1, lo, hi)
    ensures Justified(React(cfg, v, t, modBudget).ending, v, attempts)
  {
    assert [] + attempts == attempts;
    RepeatsLater([], attempts, t.Total() + 1, t.occ + 1, lo, hi);
    RepeatsLater([], attempts, t.Total() + 1, t.server + 1, lo, hi);
    RepeatsLater([], attempts, t.Total() + 1, t.pipe + 1, lo, hi);
  }

  // ----- where the loop stands ------------------------------------------------------------

  /** Where the retry loop of one chunk stands. */
  datatype Progress = Progress(packed: nat, piece: nat, hi: nat, first: bool, modBudget: nat, tries: Tries,
                               attempts: seq<Trial>)

  /** The attempt at hand, with this outcome. */
  function TrialNow(idx: nat, p: Progress, v: Verdict): Trial {
    Trial(Attempt(idx, p.hi, p.first, p.packed, p.piece), p.modBudget, p.tries, v)
  }

  /** The progress with the attempt just made on record. */
  function Recorded(idx: nat, p: Progress, v: Verdict): Progress {
    p.(attempts := p.attempts + [TrialNow(idx, p, v)])
  }

  /** The progress with the smaller chunk to send next. */
  function Repacked(idx: nat, p: Progress, v: Verdict, hi: nat, modBudget: nat): Progress {
    Recorded(idx, p, v).(hi := hi, first := false, modBudget := modBudget, tries := NO_TRIES)
  }

  /** The chunk to send next and the pack it was cut from are well-formed, and so is the log. */
  ghost predicate WellPacked(z: Sizes, cfg: Settings, netops: seq<NetOp>, idx: nat, budget: nat, p: Progress) {
    && IsPack(z, netops, idx, budget, NetopCap(cfg, |netops|), p.packed)
    && TrialOk(z, cfg, netops, TrialNow(idx, p, Landed))
    && AllOk(z, cfg, netops, p.attempts)
  }

  /** The row budget and the retries are within their bounds, and bound the log. */
  ghost predicate InBounds(cfg: Settings, idx: nat, budget: nat, p: Progress) {
    && MinModBudget(cfg) <= p.modBudget <= budget <= DSQL_MAX_ROWS_PER_TXN && p.tries.Within()
    && Repeats(p.attempts, p.tries.Total(), idx, p.hi)
    && |p.attempts| <= 15 * (budget - p.modBudget) + p.tries.Total()
  }

  /** The log so far, and the attempt that comes next, are as the policy wants them. */
  ghost predicate ByPolicy(cfg: Settings, idx: nat, budget: nat, p: Progress) {
    && Policy(cfg, p.attempts)
    && (p.attempts == [] ==> p.first && p.modBudget == budget && p.tries == NO_TRIES)
    && (p.attempts != [] ==>
          && BeginsAt(p.attempts, idx, budget)
          && Next(cfg, p.attempts[|p.attempts| - 1], TrialNow(idx, p, Landed)))
  }

  ghost predicate Settled(cfg: Settings, idx: nat, budget: nat, ending: Ending, last: Verdict, p: Progress) {
    && MinModBudget(cfg) <= p.modBudget <= budget
    && Repeats(p.attempts, 1, idx, p.hi) && |p.attempts| <= 15 * (1 + budget - p.modBudget)
    && Justified(ending, last, p.attempts)
  }

  /** Where the loop around one chunk stands, and how it ends. */
  ghost predicate Running(z: Sizes, cfg: Settings, netops: seq<NetOp>, idx: nat, budget: nat, p: Progress) {
    WellPacked(z, cfg, netops, idx, budget, p) && InBounds(cfg, idx, budget, p) && ByPolicy(cfg, idx, budget, p)
  }

  ghost predicate Over(z: Sizes, cfg: Settings, netops: seq<NetOp>, idx: nat, budget: nat,
                       ending: Ending, last: Verdict, p: Progress) {
    && idx < p.hi <= |netops| && AllOk(z, cfg, netops, p.attempts)
    && Settled(cfg, idx, budget, ending, last, p)
    && Logged(cfg, idx, budget, ending, last, p.attempts) && p.attempts[|p.attempts| - 1].budget == p.modBudget
  }

  /** The row budget is lower, or a retry fewer is left. */
  predicate Sooner(q: Progress, p: Progress) {
    q.modBudget < p.modBudget || (q.modBudget == p.modBudget && q.tries.Total() == p.tries.Total() + 1)
  }

  // What an attempt does to the chunk, ...

  lemma PackedRecorded(z: Sizes, cfg: Settings, netops: seq<NetOp>, idx: nat, budget: nat, p: Progress, v: Verdict)
    requires WellPacked(z, cfg, netops, idx, budget, p)
    ensures AllOk(z, cfg, netops, Recorded(idx, p, v).attempts)
    ensures idx < p.hi <= |netops|
  {
    AllOkConcat(z, cfg, netops, p.attempts, [TrialNow(idx, p, v)]);
  }

  lemma PackedRetries(z: Sizes, cfg: Settings, netops: seq<NetOp>, idx: nat, budget: nat, p: Progress, v: Verdict,
                      tries: Tries)
    requires WellPacked(z, cfg, netops, idx, budget, p)
    ensures WellPacked(z, cfg, netops, idx, budget, Recorded(idx, p, v).(tries := tries))
  {
    PackedRecorded(z, cfg, netops, idx, budget, p, v);
  }

  lemma RepackIsPacked(z: Sizes, cfg: Settings, netops: seq<NetOp>, idx: nat, budget: nat, q: Progress)
    requires IsPack(z, netops, idx, budget, NetopCap(cfg, |netops|), q.packed) && !q.first
    requires AttemptOk(z, cfg, netops, Attempt(idx, q.hi, false, q.packed, q.piece))
    requires IsPack(z, netops, idx, q.modBudget, NetopCap(cfg, |netops|), q.hi)
    requires AllOk(z, cfg, netops, q.attempts)
    ensures WellPacked(z, cfg, netops, idx, budget, q)
  {
  }

  // ... to the bounds, ...

  lemma BoundsRecorded(cfg: Settings, idx: nat, budget: nat, p: Progress, v: Verdict)
    requires InBounds(cfg, idx, budget, p)
    ensures var attempts := Recorded(idx, p, v).attempts;
            && Repeats(attempts, p.tries.Total() + 1, idx, p.hi) && Repeats(attempts, 1, idx, p.hi)
            && |attempts| == |p.attempts| + 1
  {
  }

  lemma BoundsStop(cfg: Settings, idx: nat, budget: nat, p: Progress, v: Verdict, ending: Ending)
    requires InBounds(cfg, idx, budget, p)
    requires if v.Landed? || v.Skipped? then ending == Done else React(cfg, v, p.tries, p.modBudget) == Stop(ending)
    ensures Settled(cfg, idx, budget, ending, v, Recorded(idx, p, v))
  {
    BoundsRecorded(cfg, idx, budget, p, v);
    if !(v.Landed? || v.Skipped?) {
      StopIsJustified(cfg, v, p.tries, p.modBudget, Recorded(idx, p, v).attempts, idx, p.hi);
    }
  }

  lemma BoundsRetry(cfg: Settings, idx: nat, budget: nat, p: Progress, v: Verdict, tries: Tries)
    requires InBounds(cfg, idx, budget, p) && tries.Within() && tries.Total() == p.tries.Total() + 1
    ensures InBounds(cfg, idx, budget, Recorded(idx, p, v).(tries := tries))
  {
    BoundsRecorded(cfg, idx, budget, p, v);
  }

  lemma BoundsRepack(cfg: Settings, idx: nat, budget: nat, p: Progress, v: Verdict, hi: nat, modBudget: nat)
    requires InBounds(cfg, idx, budget, p) && MinModBudget(cfg) <= modBudget < p.modBudget
    ensures InBounds(cfg, idx, budget, Repacked(idx, p, v, hi, modBudget))
  {
    BoundsRecorded(cfg, idx, budget, p, v);
  }

  // ... and to the policy.

  lemma PolicyRecorded(cfg: Settings, idx: nat, budget: nat, p: Progress, v: Verdict)
    requires ByPolicy(cfg, idx, budget, p)
    ensures var attempts := Recorded(idx, p, v).attempts;
            && Policy(cfg, attempts) && BeginsAt(attempts, idx, budget)
            && attempts[|attempts| - 1] == TrialNow(idx, p, v)
  {
    PolicyConcat(cfg, p.attempts, [TrialNow(idx, p, v)]);
  }

  lemma PolicyRetries(cfg: Settings, idx: nat, budget: nat, p: Progress, v: Verdict, tries: Tries)
    requires ByPolicy(cfg, idx, budget, p) && p.tries.Within()
    requires !v.Landed? && !v.Skipped? && React(cfg, v, p.tries, p.modBudget) == Retry(tries)
    ensures ByPolicy(cfg, idx, budget, Recorded(idx, p, v).(tries := tries))
  {
    PolicyRecorded(cfg, idx, budget, p, v);
    RetryIsNext(cfg, TrialNow(idx, p, v), TrialNow(idx, p.(tries := tries), Landed));
  }

  lemma PolicyRepacks(cfg: Settings, idx: nat, budget: nat, p: Progress, v: Verdict, hi: nat, modBudget: nat)
    requires ByPolicy(cfg, idx, budget, p) && p.tries.Within() && MinModBudget(cfg) <= modBudget < p.modBudget
    requires !v.Landed? && !v.Skipped? && React(cfg, v, p.tries, p.modBudget).Repack?
    ensures ByPolicy(cfg, idx, budget, Repacked(idx, p, v, hi, modBudget))
  {
    PolicyRecorded(cfg, idx, budget, p, v);
    RepackIsNext(cfg, TrialNow(idx, p, v), TrialNow(idx, Repacked(idx, p, v, hi, modBudget), Landed));
  }

  lemma PolicyStops(cfg: Settings, idx: nat, budget: nat, p: Progress, v: Verdict, ending: Ending)
    requires ByPolicy(cfg, idx, budget, p) && p.tries.Within()
    requires if v.Landed? || v.Skipped? then ending == Done else React(cfg, v, p.tries, p.modBudget) == Stop(ending)
    ensures Logged(cfg, idx, budget, ending, v, Recorded(idx, p, v).attempts)
  {
    PolicyRecorded(cfg, idx, budget, p, v);
    StopIsTheEnd(cfg, TrialNow(idx, p, v), ending);
  }

  lemma FirstIsPacked(z: Sizes, cfg: Settings, netops: seq<NetOp>, idx: nat, budget: nat, p: Progress)
    requires p.first && p.modBudget == budget && p.attempts == []
    requires IsPack(z, netops, idx, budget, NetopCap(cfg, |netops|), p.packed)
    requires AttemptOk(z, cfg, netops, Attempt(idx, p.hi, true, p.packed, p.piece))
    ensures WellPacked(z, cfg, netops, idx, budget, p)
  {
  }

  lemma FirstInBounds(cfg: Settings, idx: nat, budget: nat, p: Progress)
    requires MinModBudget(cfg) <= budget <= DSQL_MAX_ROWS_PER_TXN
    requires p.first && p.modBudget == budget && p.tries == NO_TRIES && p.attempts == []
    ensures InBounds(cfg, idx, budget, p) && ByPolicy(cfg, idx, budget, p)
  {
  }

  lemma ChunkStarts(z: Sizes, cfg: Settings, netops: seq<NetOp>, idx: nat, budget: nat, p: Progress)
    requires MinModBudget(cfg) <= budget <= DSQL_MAX_ROWS_PER_TXN
    requires p.first && p.hi == p.piece && p.modBudget == budget && p.tries == NO_TRIES && p.attempts == []
    requires IsPack(z, netops, idx, budget, NetopCap(cfg, |netops|), p.packed)
    requires AttemptOk(z, cfg, netops, Attempt(idx, p.piece, true, p.packed, p.piece))
    ensures Running(z, cfg, netops, idx, budget, p)
  {
    FirstIsPacked(z, cfg, netops, idx, budget, p);
    FirstInBounds(cfg, idx, budget, p);
  }

  // ----- the loop's answer to an outcome ---------------------------------------------------

  /** The timeout branch: record the attempt and pack a smaller chunk. */
  method RepackChunk(z: Sizes, cfg: Settings, netops: seq<NetOp>, idx: nat, ghost budget: nat, p: Progress, v: Verdict,
                     target: int)
    returns (q: Progress)
    requires Running(z, cfg, netops, idx, budget, p)
    requires !v.Landed? && !v.Skipped? && React(cfg, v, p.tries, p.modBudget).Repack?
    ensures Running(z, cfg, netops, idx, budget, q) && q.attempts == Recorded(idx, p, v).attempts
    ensures q.modBudget == RepackBudget(cfg, p.modBudget, target) < p.modBudget
  {
    var hi, modBudget := SmallerChunk(z, cfg, netops, budget, p.packed, p.piece, p.modBudget, idx, target);
    q := Repacked(idx, p, v, hi, modBudget);
    PackedRecorded(z, cfg, netops, idx, budget, p, v);
    RepackIsPacked(z, cfg, netops, idx, budget, q);
    BoundsRepack(cfg, idx, budget, p, v, hi, modBudget);
    PolicyRepacks(cfg, idx, budget, p, v, hi, modBudget);
  }

  /** The loop ends with this attempt. */
  lemma Stops(z: Sizes, cfg: Settings, netops: seq<NetOp>, idx: nat, budget: nat, p: Progress, v: Verdict,
              ending: Ending)
    requires Running(z, cfg, netops, idx, budget, p)
    requires if v.Landed? || v.Skipped? then ending == Done else React(cfg, v, p.tries, p.modBudget) == Stop(ending)
    ensures Over(z, cfg, netops, idx, budget, ending, v, Recorded(idx, p, v))
  {
    PackedRecorded(z, cfg, netops, idx, budget, p, v);
    BoundsStop(cfg, idx, budget, p, v, ending);
    PolicyStops(cfg, idx, budget, p, v, ending);
  }

  lemma Retries(z: Sizes, cfg: Settings, netops: seq<NetOp>, idx: nat, budget: nat, p: Progress, v: Verdict,
                tries: Tries)
    requires Running(z, cfg, netops, idx, budget, p)
    requires !v.Landed? && !v.Skipped? && React(cfg, v, p.tries, p.modBudget) == Retry(tries)
    ensures Running(z, cfg, netops, idx, budget, Recorded(idx, p, v).(tries := tries))
  {
    PackedRetries(z, cfg, netops, idx, budget, p, v, tries);
    BoundsRetry(cfg, idx, budget, p, v, tries);
    PolicyRetries(cfg, idx, budget, p, v, tries);
  }

  /** What the loop does with an attempt's outcome: stop, try the chunk again, or try a smaller
      one. */
  method Respond(z: Sizes, cfg: Settings, netops: seq<NetOp>, idx: nat, ghost budget: nat, p: Progress, v: Verdict,
                 target: int)
    returns (stop: Option<Ending>, q: Progress)
    requires Running(z, cfg, netops, idx, budget, p)
    ensures q.attempts == Recorded(idx, p, v).attempts
    ensures stop.Some? ==> q.hi == p.hi && Over(z, cfg, netops, idx, budget, stop.value, v, q)
    ensures stop == Some(Done) <==> v.Landed? || v.Skipped?
    ensures stop.None? ==> Running(z, cfg, netops, idx, budget, q) && Sooner(q, p)
  {
    q := Recorded(idx, p, v);
    stop := None;
    if v.Landed? || v.Skipped? {
      Stops(z, cfg, netops, idx, budget, p, v, Done);
      stop := Some(Done);
    } else {
      var reaction := React(cfg, v, p.tries, p.modBudget);
      if reaction.Stop? {
        Stops(z, cfg, netops, idx, budget, p, v, reaction.ending);
        stop := Some(reaction.ending);
      } else if reaction.Retry? {
        Retries(z, cfg, netops, idx, budget, p, v, reaction.tries);
        q := q.(tries := reaction.tries);
      } else {
        q := RepackChunk(z, cfg, netops, idx, budget, p, v, target);
      }
    }
  }
}
