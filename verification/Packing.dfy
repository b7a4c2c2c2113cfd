/**
 How a file's net operations are packed into transactions: the row and byte budgets, the measured
 backstop, and the smaller chunk after a timeout (`_pack_chunk` and the chunk loop of `apply_file`,
 scripts/glue_cdc_composite.py).
 */
module Packing {
  import opened Util
  import opened ChangeRows
  import opened NetOps
  import opened ApplyProtocol
  import opened ChunkSize

  const DSQL_MAX_TXN_BYTES := 10 * 1024 * 1024
  const CDC_CHUNK_BYTE_BUDGET := DSQL_MAX_TXN_BYTES - 205 * 1024
  const CDC_MODS_PER_INSERT := 1
  const CDC_MODS_PER_DELETE := 1

  /** `fixedChunkSize` is positive in the fixed mode only. */
  datatype Settings = Settings(fixedChunkSize: int, minChunkSize: int)

  // ----- settings -------------------------------------------------------------------------

  function MinModBudget(cfg: Settings): nat {
    Max(CDC_MODS_PER_INSERT + 1, Min(cfg.minChunkSize, DSQL_MAX_ROWS_PER_TXN))
  }

  function NetopCap(cfg: Settings, n: nat): (cap: nat)
    ensures cap >= 1
  {
    if cfg.fixedChunkSize > 0
    then Min(cfg.fixedChunkSize, Max(1, (DSQL_MAX_ROWS_PER_TXN - 1) / CDC_MODS_PER_INSERT))
    else if n > 0 then n else 1
  }

  /** Of the numbers from `lo` to `hi`, the one closest to the target. */
  predicate Nearest(b: int, target: int, lo: int, hi: int) {
    && lo <= b <= hi
    && (target < b ==> b == lo) && (target > b ==> b == hi)
  }

  // ----- packing --------------------------------------------------------------------------

  function Mods(op: NetOp): nat { if op.Upsert? then CDC_MODS_PER_INSERT else CDC_MODS_PER_DELETE }

  /** Rows a chunk transaction modifies, control rows included. */
  function ModsOf(ops: seq<NetOp>): nat {
    if ops == [] then CONTROL_ROWS else ModsOf(ops[..|ops| - 1]) + Mods(ops[|ops| - 1])
  }

  /** A chunk within both budgets; a single operation is always taken. */
  predicate Fits(z: Sizes, ops: seq<NetOp>, modBudget: nat) {
    |ops| <= 1 || (ModsOf(ops) <= modBudget && CheapBytes(z, ops) <= CDC_CHUNK_BYTE_BUDGET)
  }

  lemma {:induction false} ModsCount(ops: seq<NetOp>)
    ensures ModsOf(ops) == CONTROL_ROWS + |ops|
  {
    if ops != [] {
      ModsCount(ops[..|ops| - 1]);
    }
  }

  /** A pack: within both budgets and the cap, and one more operation is not. */
  predicate IsPack(z: Sizes, netops: seq<NetOp>, base: nat, modBudget: nat, cap: nat, hi: nat) {
    && base < hi <= |netops| && hi - base <= cap
    && Fits(z, netops[base..hi], modBudget)
    && (hi == |netops| || hi - base == cap || !Fits(z, netops[base..hi + 1], modBudget))
  }

  /** What a pack is, written out: with its control rows it modifies no more rows than the budget, its
      estimate is within the byte budget, and the next operation would break one of the two, unless
      the count cap or the file ends it; a single operation is always taken. */
  lemma PackMeans(z: Sizes, netops: seq<NetOp>, base: nat, modBudget: nat, cap: nat, hi: nat)
    ensures IsPack(z, netops, base, modBudget, cap, hi) <==>
            && base < hi <= |netops| && hi - base <= cap
            && (hi - base > 1 ==>
                  && hi - base + CONTROL_ROWS <= modBudget
                  && CheapBytes(z, netops[base..hi]) <= CDC_CHUNK_BYTE_BUDGET)
            && (hi < |netops| && hi - base < cap ==>
                  || hi - base + 1 + CONTROL_ROWS > modBudget
                  || CheapBytes(z, netops[base..hi + 1]) > CDC_CHUNK_BYTE_BUDGET)
  {
    if base < hi <= |netops| {
      ModsCount(netops[base..hi]);
      if hi < |netops| {
        ModsCount(netops[base..hi + 1]);
      }
    }
  }

  lemma FitsPrefix(z: Sizes, netops: seq<NetOp>, base: nat, mid: nat, hi: nat, modBudget: nat, larger: nat)
    requires base < mid <= hi <= |netops| && modBudget <= larger && Fits(z, netops[base..hi], modBudget)
    ensures Fits(z, netops[base..mid], larger)
  {
    ModsCount(netops[base..hi]);
    ModsCount(netops[base..mid]);
    assert netops[base..hi][..mid - base] == netops[base..mid];
    CheapBytesGrow(z, netops[base..hi], mid - base);
  }

  /** A smaller row budget packs a prefix of what a larger one packs; so a budget has one pack. */
  lemma SmallerBudgetPacksLess(z: Sizes, netops: seq<NetOp>, base: nat, modBudget: nat, larger: nat, cap: nat, hi: nat,
                               packed: nat)
    requires IsPack(z, netops, base, modBudget, cap, hi) && IsPack(z, netops, base, larger, cap, packed)
    requires modBudget <= larger
    ensures hi <= packed
  {
    if hi > packed {
      FitsPrefix(z, netops, base, packed + 1, hi, modBudget, larger);
    }
  }

  /** The settings in numbers: the fixed mode holds chunks to its size, the automatic mode has no such
      cap; and the row budget never falls below the minimum chunk size, kept between 2 and 3,000. */
  lemma ModesMean(cfg: Settings, n: nat)
    ensures cfg.fixedChunkSize > 0 ==> Nearest(NetopCap(cfg, n), cfg.fixedChunkSize, 1, 2999)
    ensures cfg.fixedChunkSize <= 0 ==> NetopCap(cfg, n) >= n
    ensures Nearest(MinModBudget(cfg), cfg.minChunkSize, 2, 3000)
  {
  }

  /** A chunk's first pack in numbers: at most 2,997 operations, which with the three control rows are
      3,000 rows, of 10,275,840 bytes by the estimate; and it ends only with the file, at the fixed size
      or where one more operation would go over. */
  lemma FirstPackMeans(z: Sizes, cfg: Settings, netops: seq<NetOp>, base: nat, hi: nat)
    requires IsPack(z, netops, base, DSQL_MAX_ROWS_PER_TXN, NetopCap(cfg, |netops|), hi)
    ensures base < hi <= |netops| && hi - base + 3 <= 3000
    ensures cfg.fixedChunkSize > 0 ==> hi - base <= cfg.fixedChunkSize
    ensures hi - base == 1 || CheapBytes(z, netops[base..hi]) <= 10275840
    ensures hi < |netops| ==>
              || hi - base == cfg.fixedChunkSize || hi - base + 3 == 3000
              || CheapBytes(z, netops[base..hi + 1]) > 10275840
  {
    ModesMean(cfg, |netops|);
    PackMeans(z, netops, base, DSQL_MAX_ROWS_PER_TXN, NetopCap(cfg, |netops|), hi);
  }

  /** The pack, one operation at a time from `hi` on. */
  function PackFrom(z: Sizes, netops: seq<NetOp>, base: nat, modBudget: nat, cap: nat, hi: nat): (r: nat)
    requires base < hi <= |netops|
    ensures hi <= r <= |netops|
    decreases |netops| - hi
  {
    if hi < |netops| && hi - base < cap && Fits(z, netops[base..hi + 1], modBudget)
    then PackFrom(z, netops, base, modBudget, cap, hi + 1) else hi
  }

  lemma {:induction false} PackFromIsPack(z: Sizes, netops: seq<NetOp>, base: nat, modBudget: nat, cap: nat, hi: nat)
    requires base < hi <= |netops| && hi - base <= cap && Fits(z, netops[base..hi], modBudget)
    ensures IsPack(z, netops, base, modBudget, cap, PackFrom(z, netops, base, modBudget, cap, hi))
    decreases |netops| - hi
  {
    if hi < |netops| && hi - base < cap && Fits(z, netops[base..hi + 1], modBudget) {
      PackFromIsPack(z, netops, base, modBudget, cap, hi + 1);
    }
  }

  /** There is exactly one pack. */
  lemma PackIsUnique(z: Sizes, netops: seq<NetOp>, base: nat, modBudget: nat, cap: nat, hi: nat)
    requires base < |netops| && cap > 0
    ensures IsPack(z, netops, base, modBudget, cap, hi) <==> hi == PackFrom(z, netops, base, modBudget, cap, base + 1)
  {
    var packed := PackFrom(z, netops, base, modBudget, cap, base + 1);
    PackFromIsPack(z, netops, base, modBudget, cap, base + 1);
    if IsPack(z, netops, base, modBudget, cap, hi) {
      SmallerBudgetPacksLess(z, netops, base, modBudget, modBudget, cap, hi, packed);
      SmallerBudgetPacksLess(z, netops, base, modBudget, modBudget, cap, packed, hi);
    }
  }

  /** `_pack_chunk`: the longest run of operations from `base` that keeps within the row budget,
      the byte budget and the count cap. */
  method PackChunk(z: Sizes, netops: seq<NetOp>, base: nat, modBudget: nat, cap: nat) returns (hi: nat)
    requires base < |netops| && cap > 0
    ensures IsPack(z, netops, base, modBudget, cap, hi)
  {
    var end := Min(base + cap, |netops|);
    var usedMods, usedBytes := CONTROL_ROWS, 0;
    hi := base;
    while hi < end
      invariant base <= hi <= end
      invariant usedMods == ModsOf(netops[base..hi]) && usedBytes == CheapBytes(z, netops[base..hi])
      invariant Fits(z, netops[base..hi], modBudget)
    {
      var m, b := Mods(netops[hi]), z.cheap(netops[hi]);
      assert netops[base..hi + 1][..hi - base] == netops[base..hi];
      if hi > base && (usedMods + m > modBudget || usedBytes + b > CDC_CHUNK_BYTE_BUDGET) {
        return;
      }
      usedMods, usedBytes := usedMods + m, usedBytes + b;
      hi := hi + 1;
    }
  }

  // ----- the measured backstop ------------------------------------------------------------

  /** The measured backstop: the tail is dropped until the built SQL fits, down to one operation.
      `target` is the proportional guess, any number at all. */
  function Shrunk(z: Sizes, netops: seq<NetOp>, base: nat, hi: nat, target: (nat, nat) -> int): (r: nat)
    requires base < hi <= |netops|
    ensures base < r <= hi
    decreases hi
  {
    var measured := Measured(z, netops[base..hi]);
    if hi - base == 1 || measured <= DSQL_MAX_TXN_BYTES then hi
    else Shrunk(z, netops, base, base + Max(1, Min(target(hi - base, measured), hi - base - 1)), target)
  }

  /** The backstop either leaves the pack or cuts it, and then only because it is over the limit. */
  predicate Backstop(z: Sizes, netops: seq<NetOp>, lo: nat, packed: nat, piece: nat) {
    && lo < piece <= packed <= |netops|
    && (piece - lo > 1 ==> Measured(z, netops[lo..piece]) <= DSQL_MAX_TXN_BYTES)
    && (piece == packed <==> packed - lo == 1 || Measured(z, netops[lo..packed]) <= DSQL_MAX_TXN_BYTES)
  }

  /** The backstop ends with a chunk that fits or with one operation, and leaves alone what fits. */
  lemma {:induction false} ShrunkIsBackstop(z: Sizes, netops: seq<NetOp>, base: nat, hi: nat, target: (nat, nat) -> int)
    requires base < hi <= |netops|
    ensures Backstop(z, netops, base, hi, Shrunk(z, netops, base, hi, target))
    decreases hi
  {
    var measured := Measured(z, netops[base..hi]);
    if hi - base > 1 && measured > DSQL_MAX_TXN_BYTES {
      ShrunkIsBackstop(z, netops, base, base + Max(1, Min(target(hi - base, measured), hi - base - 1)), target);
    }
  }

  lemma ShrunkStep(z: Sizes, netops: seq<NetOp>, base: nat, hi: nat, less: nat, target: (nat, nat) -> int)
    requires base + 1 < hi <= |netops| && Measured(z, netops[base..hi]) > DSQL_MAX_TXN_BYTES
    requires less == base + Max(1, Min(target(hi - base, Measured(z, netops[base..hi])), hi - base - 1))
    ensures base < less < hi && Shrunk(z, netops, base, hi, target) == Shrunk(z, netops, base, less, target)
  {
  }

  method ShrinkToFit(z: Sizes, netops: seq<NetOp>, base: nat, packed: nat, target: (nat, nat) -> int) returns (hi: nat)
    requires base < packed <= |netops|
    ensures hi == Shrunk(z, netops, base, packed, target)
  {
    hi := packed;
    while hi - base > 1
      invariant base < hi <= packed
      invariant Shrunk(z, netops, base, hi, target) == Shrunk(z, netops, base, packed, target)
      decreases hi - base
    {
      var measured := Measured(z, netops[base..hi]);
      if measured <= DSQL_MAX_TXN_BYTES {
        return;
      }
      var less := base + Max(1, Min(target(hi - base, measured), hi - base - 1));
      ShrunkStep(z, netops, base, hi, less, target);
      hi := less;
    }
  }

  // ----- chunks ---------------------------------------------------------------------------

  /** After a slow chunk that used its row budget, the automatic mode lowers the budget. */
  function SlowStep(cfg: Settings, modBudget: nat, chunkMods: int, slow: bool, target: int): (b: nat)
    requires MinModBudget(cfg) <= modBudget
    ensures MinModBudget(cfg) <= b <= modBudget
    ensures b < modBudget <==>
            && cfg.fixedChunkSize <= 0 && slow && chunkMods >= modBudget - CDC_MODS_PER_INSERT
            && modBudget > MinModBudget(cfg)
    ensures b < modBudget ==> Nearest(b, target, MinModBudget(cfg), modBudget - 1)
  {
    if cfg.fixedChunkSize <= 0 && slow && chunkMods >= modBudget - CDC_MODS_PER_INSERT && modBudget > MinModBudget(cfg)
    then Max(MinModBudget(cfg), Min(target, modBudget - 1))
    else modBudget
  }

  /** One attempt at a chunk: its bounds in the net-operation list and whether it was the first.
      `packed` is how far the chunk was first packed, `piece` how far the backstop left it. */
  datatype Attempt = Attempt(lo: nat, hi: nat, first: bool, packed: nat, piece: nat)

  ghost predicate AttemptOk(z: Sizes, cfg: Settings, netops: seq<NetOp>, a: Attempt) {
    && Backstop(z, netops, a.lo, a.packed, a.piece)
    && a.lo < a.hi <= a.packed && a.hi - a.lo <= NetopCap(cfg, |netops|)
    && (a.first ==> a.hi == a.piece)
    && ModsOf(netops[a.lo..a.hi]) <= DSQL_MAX_ROWS_PER_TXN
    && (a.hi - a.lo > 1 ==> CheapBytes(z, netops[a.lo..a.hi]) <= CDC_CHUNK_BYTE_BUDGET)
  }

  /** Small enough for one transaction; a single operation is always sent. */
  predicate KeepsLimit(z: Sizes, netops: seq<NetOp>, lo: nat, hi: nat)
    requires lo <= hi <= |netops|
  {
    hi - lo <= 1 || Measured(z, netops[lo..hi]) <= DSQL_MAX_TXN_BYTES
  }

  lemma KeepsLimitBelow(z: Sizes, netops: seq<NetOp>, lo: nat, hi: nat, top: nat)
    requires lo <= hi <= top <= |netops| && KeepsLimit(z, netops, lo, top)
    ensures KeepsLimit(z, netops, lo, hi)
  {
    assert netops[lo..top][..hi - lo] == netops[lo..hi];
    MeasuredGrows(z, netops[lo..top], hi - lo);
  }

  /** A re-pack after a timeout is not measured again.  It still keeps the 10 MiB limit when the
      backstop had not cut the chunk, or when it is no longer than the measured piece; so an attempt
      over the limit is a re-pack that grew back past the backstop's cut. */
  lemma OverTheLimitOnlyPastTheCut(z: Sizes, cfg: Settings, netops: seq<NetOp>, a: Attempt)
    requires AttemptOk(z, cfg, netops, a)
    ensures a.piece == a.packed || a.hi <= a.piece ==> KeepsLimit(z, netops, a.lo, a.hi)
    ensures !KeepsLimit(z, netops, a.lo, a.hi) ==> !a.first && a.piece < a.hi && !KeepsLimit(z, netops, a.lo, a.packed)
  {
    if a.piece == a.packed || a.hi <= a.piece {
      KeepsLimitBelow(z, netops, a.lo, a.hi, a.piece);
    }
    if KeepsLimit(z, netops, a.lo, a.packed) {
      KeepsLimitBelow(z, netops, a.lo, a.hi, a.packed);
    }
  }

  /** The row budget after a timeout. */
  function RepackBudget(cfg: Settings, budget: nat, target: int): (b: nat)
    requires MinModBudget(cfg) < budget
    ensures MinModBudget(cfg) <= b < budget && Nearest(b, target, MinModBudget(cfg), budget - 1)
  {
    Max(MinModBudget(cfg), Min(target, budget - 1))
  }

  /** Whatever a timeout makes of the row budget, the re-pack keeps the limit. */
  ghost predicate EveryRepackKeepsTheLimit(z: Sizes, cfg: Settings, netops: seq<NetOp>, lo: nat, budget: nat)
    requires MinModBudget(cfg) < budget
  {
    forall target, hi :: IsPack(z, netops, lo, RepackBudget(cfg, budget, target), NetopCap(cfg, |netops|), hi) ==>
      KeepsLimit(z, netops, lo, hi)
  }

  /** When the re-packs of a chunk are safe, exactly: when the pack at one row less keeps the limit,
      which can be measured before anything is sent. */
  lemma RepacksAreSafeExactly(z: Sizes, cfg: Settings, netops: seq<NetOp>, lo: nat, budget: nat, oneLess: nat)
    requires MinModBudget(cfg) < budget
    requires IsPack(z, netops, lo, budget - 1, NetopCap(cfg, |netops|), oneLess)
    ensures EveryRepackKeepsTheLimit(z, cfg, netops, lo, budget) <==> KeepsLimit(z, netops, lo, oneLess)
  {
    assert RepackBudget(cfg, budget, budget) == budget - 1;
    if KeepsLimit(z, netops, lo, oneLess) {
      forall target, hi | IsPack(z, netops, lo, RepackBudget(cfg, budget, target), NetopCap(cfg, |netops|), hi)
        ensures KeepsLimit(z, netops, lo, hi)
      {
        SmallerBudgetPacksLess(z, netops, lo, RepackBudget(cfg, budget, target), budget - 1, NetopCap(cfg, |netops|),
                               hi, oneLess);
        KeepsLimitBelow(z, netops, lo, hi, oneLess);
      }
    }
  }

  /** When each operation's estimate covers its own bytes and the upsert's frame fits into the
      reserve, every attempt keeps the limit, cut or not. */
  lemma HonestEstimateKeepsTheLimit(z: Sizes, cfg: Settings, netops: seq<NetOp>, a: Attempt)
    requires AttemptOk(z, cfg, netops, a)
    requires forall i :: a.lo <= i < a.hi ==> OpBytes(z, netops[i]) <= z.cheap(netops[i])
    requires z.frame <= DSQL_MAX_TXN_BYTES - CDC_CHUNK_BYTE_BUDGET
    ensures KeepsLimit(z, netops, a.lo, a.hi)
  {
    HonestOps(z, netops[a.lo..a.hi]);
    MeasuredIs(z, netops[a.lo..a.hi]);
  }

  lemma PieceIsOk(z: Sizes, cfg: Settings, netops: seq<NetOp>, modBudget: nat, fit: nat, a: Attempt)
    requires Backstop(z, netops, a.lo, a.packed, a.piece) && (a.first ==> a.hi == a.piece)
    requires a.lo < a.hi <= fit <= |netops| && a.hi <= a.packed && fit - a.lo <= NetopCap(cfg, |netops|)
    requires modBudget <= DSQL_MAX_ROWS_PER_TXN && Fits(z, netops[a.lo..fit], modBudget)
    ensures AttemptOk(z, cfg, netops, a)
  {
    FitsPrefix(z, netops, a.lo, a.hi, fit, modBudget, modBudget);
    ModsCount(netops[a.lo..a.hi]);
  }

  /** A new chunk: pack it, then measure what was built. */
  method FirstChunk(z: Sizes, cfg: Settings, netops: seq<NetOp>, idx: nat, modBudget: nat, target: (nat, nat) -> int)
    returns (packed: nat, hi: nat)
    requires idx < |netops| && modBudget <= DSQL_MAX_ROWS_PER_TXN
    ensures IsPack(z, netops, idx, modBudget, NetopCap(cfg, |netops|), packed)
    ensures hi == Shrunk(z, netops, idx, packed, target)
    ensures AttemptOk(z, cfg, netops, Attempt(idx, hi, true, packed, hi))
  {
    packed := PackChunk(z, netops, idx, modBudget, NetopCap(cfg, |netops|));
    hi := ShrinkToFit(z, netops, idx, packed, target);
    ShrunkIsBackstop(z, netops, idx, packed, target);
    PieceIsOk(z, cfg, netops, modBudget, packed, Attempt(idx, hi, true, packed, hi));
  }

  /** The chunk after a timeout: a lower row budget, packed again, not measured. */
  method SmallerChunk(z: Sizes, cfg: Settings, netops: seq<NetOp>, ghost start: nat, packed: nat, piece: nat,
                      budget: nat, idx: nat, target: int)
    returns (hi: nat, modBudget: nat)
    requires idx < |netops| && MinModBudget(cfg) < budget <= start <= DSQL_MAX_ROWS_PER_TXN
    requires IsPack(z, netops, idx, start, NetopCap(cfg, |netops|), packed)
    requires Backstop(z, netops, idx, packed, piece)
    ensures modBudget == RepackBudget(cfg, budget, target)
    ensures IsPack(z, netops, idx, modBudget, NetopCap(cfg, |netops|), hi)
    ensures AttemptOk(z, cfg, netops, Attempt(idx, hi, false, packed, piece))
  {
    modBudget := Max(MinModBudget(cfg), Min(target, budget - 1));
    hi := PackChunk(z, netops, idx, modBudget, NetopCap(cfg, |netops|));
    SmallerBudgetPacksLess(z, netops, idx, modBudget, start, NetopCap(cfg, |netops|), hi, packed);
    PieceIsOk(z, cfg, netops, modBudget, hi, Attempt(idx, hi, false, packed, piece));
  }
}
