/**
 When the packer's character count is enough (`_netop_cheap_bytes` of
 scripts/glue_cdc_composite.py): on a table with one key column, values of ASCII characters without
 quotes never make a chunk longer than estimated, so no attempt goes over the limit.
 */
module AsciiChunks {
  import opened Util
  import opened ChangeRows
  import opened NetOps
  import opened ChunkSize
  import opened Packing

  predicate Plain(s: string) { Ascii(s) && '\'' !in s }

  predicate PlainValue(v: Option<string>) { v.Some? ==> Plain(v.value) }

  function CastAt(l: Layout, i: nat): string
    requires i < |l.keys| + |l.cols|
  {
    l.cast(if i < |l.keys| then l.keys[i] else l.cols[i - |l.keys|])
  }

  /** The type suffixes of the first `n` literals. */
  function CastChars(l: Layout, n: nat): nat
    requires n <= |l.keys| + |l.cols|
  {
    if n == 0 then 0 else CastChars(l, n - 1) + |CastAt(l, n - 1)|
  }

  /** A table with one key column, whose names and type suffixes are ASCII and whose suffixes together
      are no longer than what an estimate has to spare. */
  ghost predicate PlainTable(l: Layout) {
    && |l.keys| == 1 && Ascii(l.target) && Ascii(l.keys[0]) && (forall i :: 0 <= i < |l.cols| ==> Ascii(l.cols[i]))
    && (forall c :: Ascii(l.cast(c)))
    && CastChars(l, |l.keys| + |l.cols|) <= 38
  }

  predicate PlainOp(l: Layout, op: NetOp) {
    && Plain(KeyAt(op.key, 0))
    && (op.Upsert? ==> forall i :: 0 <= i < |l.cols| ==> PlainValue(ValueOf(op.image, l.cols[i])))
  }

  lemma {:induction false} PlainIsNotDoubled(s: string)
    requires '\'' !in s
    ensures Doubled(s) == s
  {
    if s != [] {
      assert s == s[..|s| - 1] + [s[|s| - 1]];
      PlainIsNotDoubled(s[..|s| - 1]);
    }
  }

  /** The length of a literal. */
  lemma LiteralChars(v: Option<string>, cast: string)
    requires PlainValue(v) && Ascii(cast)
    ensures Ascii(Literal(v, cast)) && |Literal(v, cast)| == if v == None then 4 else |v.value| + 2 + |cast|
  {
    if v.Some? {
      PlainIsNotDoubled(v.value);
    }
  }

  function ItemAt(l: Layout, key: Key, image: Image, i: nat): string
    requires i < |l.keys| + |l.cols|
  {
    Literal(if i < |l.keys| then Some(KeyAt(key, i)) else ValueOf(image, l.cols[i - |l.keys|]), CastAt(l, i))
  }

  /** A literal with its separator is no longer than the estimate and the type suffix. */
  ghost predicate ItemFits(l: Layout, key: Key, image: Image, i: nat) {
    && i < |l.keys| + |l.cols| && Ascii(ItemAt(l, key, image, i))
    && |ItemAt(l, key, image, i)| + 2 + ValueChars(l, key, image, i)
       <= ValueChars(l, key, image, i + 1) + |CastAt(l, i)|
  }

  lemma ItemChars(l: Layout, key: Key, image: Image, i: nat)
    requires PlainTable(l) && PlainOp(l, Upsert(key, image)) && i < |l.keys| + |l.cols|
    ensures ItemFits(l, key, image, i)
  {
    var v := if i < |l.keys| then Some(KeyAt(key, i)) else ValueOf(image, l.cols[i - |l.keys|]);
    LiteralChars(v, CastAt(l, i));
  }

  lemma ItemsNext(l: Layout, key: Key, image: Image, i: nat)
    requires i < |l.keys| + |l.cols|
    ensures Items(l, key, image, i + 1)
            == Items(l, key, image, i) + (if i == 0 then "" else ", ") + ItemAt(l, key, image, i)
  {
  }

  lemma AsciiJoined(a: string, b: string, c: string)
    requires Ascii(a) && Ascii(b) && Ascii(c)
    ensures Ascii(a + b + c) && |a + b + c| == |a| + |b| + |c|
  {
  }

  /** Texts that grow by one item each, with a separator in between. */
  ghost predicate Grows(texts: seq<string>, items: seq<string>, most: seq<nat>) {
    && |texts| == |most| == |items| + 1 && texts[0] == ""
    && (forall k :: 0 <= k < |items| ==> texts[k + 1] == texts[k] + (if k == 0 then "" else ", ") + items[k])
    && (forall k :: 0 <= k < |items| ==> Ascii(items[k]) && |items[k]| + 2 + most[k] <= most[k + 1])
  }

  /** Two characters an item are for its separator. */
  lemma {:induction false} GrowsPlain(texts: seq<string>, items: seq<string>, most: seq<nat>, n: nat)
    requires Grows(texts, items, most) && n <= |items|
    ensures Ascii(texts[n]) && (n > 0 ==> |texts[n]| + 2 + most[0] <= most[n])
  {
    if n > 0 {
      GrowsPlain(texts, items, most, n - 1);
      AsciiJoined(texts[n - 1], if n == 1 then "" else ", ", items[n - 1]);
    }
  }

  lemma WhereChars(l: Layout, key: Key)
    requires PlainTable(l) && Plain(KeyAt(key, 0))
    ensures Ascii(Where(l, key, 1))
    ensures |Where(l, key, 1)| == |l.keys[0]| + |KeyAt(key, 0)| + 7 + |l.cast(l.keys[0])|
  {
    var none: nat := 0;
    assert Where(l, key, none) == "";
    LiteralChars(Some(KeyAt(key, 0)), l.cast(l.keys[0]));
  }

  lemma {:induction false} FirstCast(l: Layout, n: nat)
    requires 0 < n <= |l.keys| + |l.cols|
    ensures |CastAt(l, 0)| <= CastChars(l, n)
  {
    if n > 1 {
      FirstCast(l, n - 1);
    } else {
      assert CastChars(l, n - 1) == 0;
    }
  }

  lemma PlainDelete(l: Layout, key: Key)
    requires PlainTable(l) && Plain(KeyAt(key, 0))
    ensures Bytes(DeleteText(l, key)) <= DeleteOverhead(l) + |KeyAt(key, 0)| + 16
  {
    WhereChars(l, key);
    FirstCast(l, |l.keys| + |l.cols|);
    var head := "DELETE FROM " + l.target + " WHERE ";
    assert DeleteText(l, key) == head + Where(l, key, 1);
    AsciiBytes(DeleteText(l, key));
  }

  lemma NothingYet(l: Layout, key: Key, image: Image, n: nat)
    requires n == 0
    ensures Items(l, key, image, n) == "" && ValueChars(l, key, image, n) == 0 && CastChars(l, n) == 0
  {
  }

  ghost predicate TextsOf(l: Layout, key: Key, image: Image, texts: seq<string>, items: seq<string>, most: seq<nat>) {
    && |items| == |l.keys| + |l.cols| && |texts| == |most| == |items| + 1
    && (forall k :: 0 <= k < |texts| ==> texts[k] == Items(l, key, image, k))
    && (forall k :: 0 <= k < |items| ==> items[k] == ItemAt(l, key, image, k))
    && (forall k :: 0 <= k < |most| ==> most[k] == ValueChars(l, key, image, k) + CastChars(l, k))
  }

  lemma TextsOfItems(l: Layout, key: Key, image: Image) returns (texts: seq<string>, items: seq<string>, most: seq<nat>)
    ensures TextsOf(l, key, image, texts, items, most)
  {
    var n := |l.keys| + |l.cols|;
    texts := seq(n + 1, k requires 0 <= k <= n => Items(l, key, image, k));
    items := seq(n, k requires 0 <= k < n => ItemAt(l, key, image, k));
    most := seq(n + 1, k requires 0 <= k <= n => ValueChars(l, key, image, k) + CastChars(l, k));
  }

  lemma OneMoreText(l: Layout, key: Key, image: Image, texts: seq<string>, items: seq<string>, most: seq<nat>, k: nat)
    requires TextsOf(l, key, image, texts, items, most) && k < |items| && ItemFits(l, key, image, k)
    ensures texts[k + 1] == texts[k] + (if k == 0 then "" else ", ") + items[k]
    ensures Ascii(items[k]) && |items[k]| + 2 + most[k] <= most[k + 1]
  {
    ItemsNext(l, key, image, k);
    assert CastChars(l, k + 1) == CastChars(l, k) + |CastAt(l, k)|;
  }

  lemma TextsGrow(l: Layout, key: Key, image: Image, texts: seq<string>, items: seq<string>, most: seq<nat>)
    requires PlainTable(l) && PlainOp(l, Upsert(key, image)) && TextsOf(l, key, image, texts, items, most)
    ensures Grows(texts, items, most) && most[0] == 0
  {
    var none: nat := 0;
    NothingYet(l, key, image, none);
    forall k: nat | k < |items|
      ensures texts[k + 1] == texts[k] + (if k == 0 then "" else ", ") + items[k]
      ensures Ascii(items[k]) && |items[k]| + 2 + most[k] <= most[k + 1]
    {
      ItemChars(l, key, image, k);
      OneMoreText(l, key, image, texts, items, most, k);
    }
  }

  lemma ItemsArePlain(l: Layout, key: Key, image: Image, n: nat)
    requires PlainTable(l) && PlainOp(l, Upsert(key, image)) && n == |l.keys| + |l.cols|
    ensures Ascii(Items(l, key, image, n))
    ensures |Items(l, key, image, n)| + 2 <= ValueChars(l, key, image, n) + CastChars(l, n)
  {
    var texts, items, most := TextsOfItems(l, key, image);
    TextsGrow(l, key, image, texts, items, most);
    GrowsPlain(texts, items, most, n);
  }

  lemma Enclosed(items: string)
    requires Ascii(items)
    ensures Bytes("(" + items + ")") == |items| + 2
  {
    AsciiJoined("(", items, ")");
    AsciiBytes("(" + items + ")");
  }

  lemma PlainGroup(l: Layout, key: Key, image: Image)
    requires PlainTable(l) && PlainOp(l, Upsert(key, image))
    ensures var n := |l.keys| + |l.cols|;
            Bytes(GroupText(l, key, image)) <= ValueChars(l, key, image, n) + CastChars(l, n)
  {
    var n := |l.keys| + |l.cols|;
    ItemsArePlain(l, key, image, n);
    Enclosed(Items(l, key, image, n));
  }

  /** The estimate of an operation covers the bytes of its own DELETE or group. */
  lemma PlainOpIsHonest(l: Layout, op: NetOp)
    requires PlainTable(l) && PlainOp(l, op)
    ensures OpBytes(SizesOf(l), op) <= SizesOf(l).cheap(op)
  {
    match op
    case Delete(k) => PlainDelete(l, k);
    case Upsert(k, image) => PlainGroup(l, k, image);
  }

  /** So on such a table every attempt, first or re-packed, measured or not, keeps the 10 MiB, when the
      frame of the upsert fits into the 205 KiB that the byte budget leaves. */
  lemma PlainChunksKeepTheLimit(l: Layout, cfg: Settings, netops: seq<NetOp>, a: Attempt)
    requires PlainTable(l) && forall i :: 0 <= i < |netops| ==> PlainOp(l, netops[i])
    requires AttemptOk(SizesOf(l), cfg, netops, a) && Bytes(FrameText(l)) <= 205 * 1024
    ensures a.hi - a.lo <= 1 || Measured(SizesOf(l), netops[a.lo..a.hi]) <= 10485760
  {
    forall i | a.lo <= i < a.hi ensures OpBytes(SizesOf(l), netops[i]) <= SizesOf(l).cheap(netops[i]) {
      PlainOpIsHonest(l, netops[i]);
    }
    HonestEstimateKeepsTheLimit(SizesOf(l), cfg, netops, a);
  }
}
