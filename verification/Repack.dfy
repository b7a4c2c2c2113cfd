/**
 The re-pack that grows back past the backstop's cut: twelve wide rows of a table with one key and
 one text column, from the first pack to the chunk that is sent again after a transaction timeout
 (scripts/glue_cdc_composite.py).
 */
module Repack {
  import opened Util
  import opened ChangeRows
  import opened NetOps
  import opened ApplyProtocol
  import opened ChunkSize
  import opened Packing
  import opened RetryPolicy
  import opened RetryLoop

  const CDC_MIN_CHUNK_SIZE := 100
  const AUTO := Settings(0, CDC_MIN_CHUNK_SIZE)
  const TIMEOUT := Error(Failure(false, false, true, false, false, false, true))

  /** The backstop's guess: 99 % of the limit at the measured bytes per operation. */
  function Proportional(count: nat, measured: nat): int {
    if measured == 0 then 0 else DSQL_MAX_TXN_BYTES * 99 * count / (100 * measured)
  }

  /** The row budget aimed at after a timeout: 90 % of the trigger, from the seconds it took. */
  function AfterFail(mods: nat, trigger: nat, elapsed: nat): int
    requires elapsed > 0
  {
    mods * 90 * trigger / (100 * elapsed)
  }

  // ----- the table and its rows ------------------------------------------------------------

  /** A table with one key and one text column, whose literals need no cast. */
  predicate Notes(l: Layout) {
    && |l.keys| == |l.cols| == 1 && |l.target| <= 100 && |l.keys[0]| <= 50 && |l.cols[0]| <= 50
    && l.cast(l.keys[0]) == l.cast(l.cols[0]) == ""
  }

  /** A character of three bytes, `n` times. */
  function Repeat(n: nat): string { if n == 0 then [] else Repeat(n - 1) + ['\U{8A9E}'] }

  lemma {:induction false} RepeatSize(n: nat)
    ensures |Repeat(n)| == n && Bytes(Repeat(n)) == 3 * n && Doubled(Repeat(n)) == Repeat(n)
  {
    if n > 0 {
      RepeatSize(n - 1);
      assert Repeat(n)[..n - 1] == Repeat(n - 1);
    }
  }

  predicate ShortKey(k: Key) { |k| == 1 && |k[0]| == 1 && k[0][0] < '\U{80}' && k[0][0] != '\'' }

  /** Inserts of `width` wide characters each, under keys of one ASCII character. */
  predicate Wide(l: Layout, ops: seq<NetOp>, width: nat)
    requires Notes(l)
  {
    && DistinctKeys(ops)
    && forall i :: 0 <= i < |ops| ==>
         ops[i].Upsert? && ShortKey(ops[i].key) && ops[i].image == map[l.cols[0] := Some(Repeat(width))]
  }

  // ----- sizes -----------------------------------------------------------------------------

  lemma {:induction false} BytesAtMost(s: string)
    ensures Bytes(s) <= 4 * |s|
  {
    if s != [] {
      BytesAtMost(s[..|s| - 1]);
    }
  }

  lemma LiteralBytes(s: string)
    requires Doubled(s) == s
    ensures Bytes(Literal(Some(s), "")) == Bytes(s) + 2
  {
    var q := "'";
    assert Literal(Some(s), "") == (q + s) + q;
    BytesConcat(q, s);
    BytesConcat(q + s, q);
    AsciiBytes(q);
  }

  lemma PairBytes(a: string, b: string)
    ensures Bytes("(" + (a + ", " + b) + ")") == Bytes(a) + Bytes(b) + 4
  {
    var open, comma, close := "(", ", ", ")";
    AsciiBytes(open);
    AsciiBytes(comma);
    AsciiBytes(close);
    BytesConcat(a, comma);
    BytesConcat(a + comma, b);
    BytesConcat(open, a + comma + b);
    BytesConcat(open + (a + comma + b), close);
  }

  lemma GroupIsPair(l: Layout, key: Key, image: Image)
    requires Notes(l) && |key| == 1
    ensures GroupText(l, key, image)
            == "(" + (Literal(Some(key[0]), "") + ", " + Literal(ValueOf(image, l.cols[0]), "")) + ")"
  {
    var none: nat := 0;
    assert Items(l, key, image, none) == "";
    assert Items(l, key, image, none + 1) == Literal(Some(key[0]), "");
  }

  lemma GroupIs(l: Layout, key: Key, image: Image, width: nat)
    requires Notes(l) && ShortKey(key) && image == map[l.cols[0] := Some(Repeat(width))]
    ensures Bytes(GroupText(l, key, image)) == 3 * width + 9
  {
    RepeatSize(width);
    var k := key[0];
    assert k[..0] == [] && k == [k[0]];
    assert Doubled(k) == k;
    AsciiBytes(k);
    LiteralBytes(k);
    LiteralBytes(Repeat(width));
    GroupIsPair(l, key, image);
    PairBytes(Literal(Some(k), ""), Literal(Some(Repeat(width)), ""));
  }

  lemma NamesOf(names: seq<string>, a: string, b: string)
    ensures |Names([a])| == |a| + 2
    ensures |Names([a] + [b])| == |a| + |b| + 6
    ensures |Updates([a])| == 2 * |a| + 16
  {
    assert [a][..0] == [] && ([a] + [b])[..1] == [a];
  }

  lemma FrameIs(l: Layout)
    requires Notes(l)
    ensures Bytes(FrameText(l)) <= 4000
  {
    NamesOf(l.keys, l.keys[0], l.cols[0]);
    NamesOf(l.cols, l.cols[0], l.cols[0]);
    assert l.keys == [l.keys[0]] && l.cols == [l.cols[0]];
    assert |FrameText(l)| <= 1000;
    BytesAtMost(FrameText(l));
  }

  lemma CheapIs(l: Layout, op: NetOp, width: nat)
    requires Notes(l) && op.Upsert? && ShortKey(op.key) && op.image == map[l.cols[0] := Some(Repeat(width))]
    ensures Cheap(l, op) <= width + 1000
  {
    RepeatSize(width);
    var none: nat := 0;
    assert ValueChars(l, op.key, op.image, none) == 0;
    assert ValueChars(l, op.key, op.image, none + 1) == 5;
    assert ValueChars(l, op.key, op.image, none + 2) == width + 9;
  }

  lemma {:induction false} WideBytes(l: Layout, ops: seq<NetOp>, width: nat, each: nat)
    requires Notes(l) && Wide(l, ops, width) && each == 3 * width + 11
    ensures OpsBytes(SizesOf(l), ops) == |ops| * each
    ensures ops != [] ==> Values(ops) != []
  {
    if ops != [] {
      var n := |ops| - 1;
      WideBytes(l, ops[..n], width, each);
      GroupIs(l, ops[n].key, ops[n].image, width);
      OneMore(n, each);
    }
  }

  lemma {:induction false} WideCheap(l: Layout, ops: seq<NetOp>, width: nat, each: nat)
    requires Notes(l) && Wide(l, ops, width) && each == width + 1000
    ensures CheapBytes(SizesOf(l), ops) <= |ops| * each
  {
    if ops != [] {
      var n := |ops| - 1;
      WideCheap(l, ops[..n], width, each);
      CheapIs(l, ops[n], width);
      OneMore(n, each);
    }
  }

  lemma OneMore(n: nat, x: nat)
    ensures (n + 1) * x == n * x + x
  {
  }

  /** A chunk of such rows: its rows and the frame of the one upsert. */
  lemma WideMeasured(l: Layout, ops: seq<NetOp>, width: nat, each: nat)
    requires Notes(l) && Wide(l, ops, width) && each == 3 * width + 11 && ops != []
    ensures Measured(SizesOf(l), ops) == |ops| * each + SizesOf(l).frame - 2
    ensures SizesOf(l).frame <= 4000
  {
    WideBytes(l, ops, width, each);
    FrameIs(l);
    MeasuredIs(SizesOf(l), ops);
  }

  lemma ElevenFit(l: Layout, ops: seq<NetOp>, width: nat)
    requires Notes(l) && Wide(l, ops, width) && |ops| == 11 && width == 300000
    ensures Measured(SizesOf(l), ops) <= DSQL_MAX_TXN_BYTES
  {
    WideMeasured(l, ops, width, 900011);
  }

  lemma TwelveDoNot(l: Layout, ops: seq<NetOp>, width: nat)
    requires Notes(l) && Wide(l, ops, width) && |ops| == 12 && width == 300000
    ensures DSQL_MAX_TXN_BYTES < 10800130 <= Measured(SizesOf(l), ops) <= 10804130
  {
    WideMeasured(l, ops, width, 900011);
  }

  lemma TwelveAreCheap(l: Layout, ops: seq<NetOp>, width: nat)
    requires Notes(l) && Wide(l, ops, width) && |ops| == 12 && width == 300000
    ensures CheapBytes(SizesOf(l), ops) <= CDC_CHUNK_BYTE_BUDGET
  {
    WideCheap(l, ops, width, 301000);
  }

  /** Twelve rows of 900 KB are over the limit, eleven are not. */
  lemma TwelveAreTooMany(l: Layout, ops: seq<NetOp>, width: nat)
    requires Notes(l) && Wide(l, ops, width) && |ops| == 12 && width == 300000
    ensures var z := SizesOf(l);
            && DSQL_MAX_TXN_BYTES < 10800130 <= Measured(z, ops) <= 10804130
            && Measured(z, ops[..11]) <= DSQL_MAX_TXN_BYTES
            && CheapBytes(z, ops) <= CDC_CHUNK_BYTE_BUDGET
  {
    TwelveDoNot(l, ops, width);
    ElevenFit(l, ops[..11], width);
    TwelveAreCheap(l, ops, width);
  }

  // ----- the run ---------------------------------------------------------------------------

  lemma QuotientIs(n: nat, d: nat, q: nat)
    requires d > 0 && d * q <= n < d * q + d
    ensures n / d == q
  {
    var r := n / d;
    assert n == d * r + n % d;
    if r < q {
      ProductGrows(d, r + 1, q);
    } else if r > q {
      ProductGrows(d, q + 1, r);
    }
  }

  lemma ProductGrows(d: nat, a: nat, b: nat)
    requires a <= b
    ensures d * a <= d * b
  {
  }

  lemma GuessIsEleven(count: nat, measured: nat)
    requires count == 12 && 10800130 <= measured <= 10804130
    ensures Proportional(count, measured) == 11
  {
    QuotientIs(DSQL_MAX_TXN_BYTES * 99 * count, 100 * measured, 11);
  }

  /** One cut: at the guess the rest fits. */
  lemma CutOnce(z: Sizes, ops: seq<NetOp>, hi: nat, cut: nat, target: (nat, nat) -> int)
    requires 1 < cut < hi == |ops| && Measured(z, ops[0..hi]) > DSQL_MAX_TXN_BYTES
    requires target(hi, Measured(z, ops[0..hi])) == cut && Measured(z, ops[0..cut]) <= DSQL_MAX_TXN_BYTES
    ensures Shrunk(z, ops, 0, hi, target) == cut
  {
    var base: nat := 0;
    assert Shrunk(z, ops, base, hi, target) == Shrunk(z, ops, base, cut, target);
  }

  lemma CutToEleven(l: Layout, ops: seq<NetOp>, width: nat)
    requires Notes(l) && Wide(l, ops, width) && |ops| == 12 && width == 300000
    ensures Shrunk(SizesOf(l), ops, 0, |ops|, Proportional) == 11
  {
    TwelveAreTooMany(l, ops, width);
    assert ops[0..|ops|] == ops && ops[0..11] == ops[..11];
    GuessIsEleven(|ops|, Measured(SizesOf(l), ops));
    CutOnce(SizesOf(l), ops, |ops|, 11, Proportional);
  }

  lemma AllArePacked(l: Layout, ops: seq<NetOp>, width: nat, modBudget: nat)
    requires Notes(l) && Wide(l, ops, width) && |ops| == 12 && width == 300000 && modBudget >= 15
    ensures IsPack(SizesOf(l), ops, 0, modBudget, NetopCap(AUTO, |ops|), |ops|)
  {
    assert ops[0..|ops|] == ops;
    ModsCount(ops);
    TwelveAreTooMany(l, ops, width);
  }

  /** Net operations with distinct keys are those of a file with one row a key. */
  lemma DistinctIsCollapsed(ops: seq<NetOp>)
    requires DistinctKeys(ops)
    ensures CollapseOps(ops) == ops
  {
    forall i | 0 <= i < |ops| ensures Mentions(ops, ops[i].key) && FirstIndex(ops, ops[i].key) == i {
      LastOpOfDistinct(ops, i);
    }
    assert FirstAppearanceOrder(ops, ops);
    CollapseOpsIsCollapse(ops);
    CollapseIsUnique(CollapseOps(ops), ops, ops);
  }

  /** Twelve rows of 900 KB pass the estimate, which counts characters; the backstop measures
      them and cuts the chunk to eleven.  A transaction timeout then lowers the row budget, but not
      below its floor of 100, and the re-pack takes all twelve again: over 10 MiB, unmeasured. */
  lemma RepackCanExceedTheLimit(l: Layout, ops: seq<NetOp>, width: nat)
    requires Notes(l) && Wide(l, ops, width) && |ops| == 12 && width == 300000
    ensures
      var z, n, cap := SizesOf(l), |ops|, NetopCap(AUTO, |ops|);
      && CollapseOps(ops) == ops
      && IsPack(z, ops, 0, DSQL_MAX_ROWS_PER_TXN, cap, n)
      && Shrunk(z, ops, 0, n, Proportional) == 11
      && React(AUTO, TIMEOUT, Tries(0, 0, 0), DSQL_MAX_ROWS_PER_TXN).Repack?
      && RepackBudget(AUTO, DSQL_MAX_ROWS_PER_TXN, AfterFail(1 + 11, 270, 300)) == CDC_MIN_CHUNK_SIZE
      && IsPack(z, ops, 0, CDC_MIN_CHUNK_SIZE, cap, n)
      && !KeepsLimit(z, ops, 0, n)
  {
    DistinctIsCollapsed(ops);
    AllArePacked(l, ops, width, DSQL_MAX_ROWS_PER_TXN);
    AllArePacked(l, ops, width, CDC_MIN_CHUNK_SIZE);
    CutToEleven(l, ops, width);
    NoLimitKept(l, ops, width);
    TimeoutGoesToTheFloor();
  }

  lemma TimeoutGoesToTheFloor()
    ensures React(AUTO, TIMEOUT, Tries(0, 0, 0), DSQL_MAX_ROWS_PER_TXN) == Reaction.Repack
    ensures RepackBudget(AUTO, DSQL_MAX_ROWS_PER_TXN, AfterFail(1 + 11, 270, 300)) == CDC_MIN_CHUNK_SIZE
  {
  }

  lemma NoLimitKept(l: Layout, ops: seq<NetOp>, width: nat)
    requires Notes(l) && Wide(l, ops, width) && |ops| == 12 && width == 300000
    ensures !KeepsLimit(SizesOf(l), ops, 0, |ops|)
  {
    TwelveDoNot(l, ops, width);
    OverTheLimit(SizesOf(l), ops);
  }

  lemma OverTheLimit(z: Sizes, ops: seq<NetOp>)
    requires |ops| > 1 && Measured(z, ops) > DSQL_MAX_TXN_BYTES
    ensures !KeepsLimit(z, ops, 0, |ops|)
  {
    assert ops[0..|ops|] == ops;
  }
}
