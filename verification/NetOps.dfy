/**
 The keyed collapse of one change file and the SQL a chunk of it runs
 (`collapse_net_ops` and `build_chunk_sql` of scripts/glue_cdc_composite.py).

 A change file is a list of raw CSV rows.  The collapse folds it to one net operation per key,
 keeping the order in which the keys first appear.  A chunk runs its DELETEs first and then one
 multi-row upsert.  The main result is `CollapsedChunksPreserveMeaning`.
 */
module NetOps {
  import opened Util
  import opened ChangeRows

  // ----- one row ---------------------------------------------------------------------------

  function Field(row: Row, i: nat): Option<string> {
    if i < |row| then Some(row[i]) else None
  }

  predicate IsShort(row: Row) { |row| < 2 }

  predicate IsDelete(ctx: Context, row: Row) {
    Field(row, ctx.opIdx) == Some("D") || Field(row, ctx.opIdx) == Some("d")
  }

  /** The key tuple, or `None` when some key column is NULL. */
  function KeyFrom(ctx: Context, row: Row, i: nat): Option<Key>
    requires i <= |ctx.keyIdxs|
    decreases |ctx.keyIdxs| - i
  {
    if i == |ctx.keyIdxs| then Some([])
    else
      match ctx.coerceKey(i, Field(row, ctx.keyIdxs[i]))
      case None => None
      case Some(k) =>
        match KeyFrom(ctx, row, i + 1)
        case None => None
        case Some(rest) => Some([k] + rest)
  }

  function KeyOf(ctx: Context, row: Row): Option<Key> { KeyFrom(ctx, row, 0) }

  function ImageOf(ctx: Context, row: Row): Image {
    map c | c in ctx.colIdx :: ctx.convert(c, Field(row, ctx.colIdx[c]))
  }

  predicate HasKey(ctx: Context, row: Row) { KeyOf(ctx, row).Some? }

  function RowOp(ctx: Context, row: Row): NetOp
    requires HasKey(ctx, row)
  {
    var k := KeyOf(ctx, row).value;
    if IsDelete(ctx, row) then Delete(k) else Upsert(k, ImageOf(ctx, row))
  }

  /** Every data row (a line of at least two fields) names its key. */
  predicate Keyed(ctx: Context, rows: seq<Row>) {
    forall i :: 0 <= i < |rows| && !IsShort(rows[i]) ==> HasKey(ctx, rows[i])
  }

  /** The operations of the data rows, in file order. */
  function RowOps(ctx: Context, rows: seq<Row>): seq<NetOp>
    requires Keyed(ctx, rows)
  {
    if rows == [] then []
    else
      var front, last := rows[..|rows| - 1], rows[|rows| - 1];
      assert forall i :: 0 <= i < |front| ==> front[i] == rows[i];
      if IsShort(last) then RowOps(ctx, front) else RowOps(ctx, front) + [RowOp(ctx, last)]
  }

  // ----- meaning of an operation list ------------------------------------------------------

  /** The source database's meaning of one change: a delete removes the row, anything else
      replaces the whole row. */
  function ApplyOp(t: Table, op: NetOp): Table {
    match op
    case Delete(k) => t - {k}
    case Upsert(k, img) => t[k := img]
  }

  function ApplyOps(t: Table, ops: seq<NetOp>): Table {
    if ops == [] then t else ApplyOp(ApplyOps(t, ops[..|ops| - 1]), ops[|ops| - 1])
  }

  lemma {:induction false} ApplyOpsConcat(t: Table, a: seq<NetOp>, b: seq<NetOp>)
    ensures ApplyOps(t, a + b) == ApplyOps(ApplyOps(t, a), b)
  {
    if b == [] {
      assert a + b == a;
    } else {
      assert (a + b)[..|a + b| - 1] == a + b[..|b| - 1];
      ApplyOpsConcat(t, a, b[..|b| - 1]);
    }
  }

  predicate Mentions(ops: seq<NetOp>, k: Key) {
    exists i :: 0 <= i < |ops| && ops[i].key == k
  }

  /** The last operation on a key: the one that decides its final row. */
  function LastOp(ops: seq<NetOp>, k: Key): (op: NetOp)
    requires Mentions(ops, k)
    ensures op.key == k && op in ops
  {
    if ops[|ops| - 1].key == k then ops[|ops| - 1] else LastOp(ops[..|ops| - 1], k)
  }

  predicate Agrees(t: Table, op: NetOp) {
    match op
    case Delete(k) => k !in t
    case Upsert(k, img) => k in t && t[k] == img
  }

  /** Only the last operation on a key matters to that key. */
  lemma {:induction false} FinalRow(t: Table, ops: seq<NetOp>, k: Key)
    ensures Mentions(ops, k) ==> Agrees(ApplyOps(t, ops), LastOp(ops, k))
    ensures !Mentions(ops, k) && k in t ==> k in ApplyOps(t, ops) && ApplyOps(t, ops)[k] == t[k]
    ensures !Mentions(ops, k) && k !in t ==> k !in ApplyOps(t, ops)
  {
    if ops != [] {
      var front, last := ops[..|ops| - 1], ops[|ops| - 1];
      FinalRow(t, front, k);
      assert Mentions(front, k) ==> Mentions(ops, k) by {
        if Mentions(front, k) {
          var i :| 0 <= i < |front| && front[i].key == k;
          assert ops[i].key == k;
        }
      }
      if last.key != k && Mentions(ops, k) {
        var i :| 0 <= i < |ops| && ops[i].key == k;
        assert front[i].key == k;
      }
    }
  }

  predicate DistinctKeys(ops: seq<NetOp>) {
    forall i, j :: 0 <= i < j < |ops| ==> ops[i].key != ops[j].key
  }

  ghost predicate SameLastOps(a: seq<NetOp>, b: seq<NetOp>) {
    && (forall k :: Mentions(a, k) <==> Mentions(b, k))
    && (forall k :: Mentions(a, k) && Mentions(b, k) ==> LastOp(a, k) == LastOp(b, k))
  }

  lemma SameLastOpsSameMeaning(t: Table, a: seq<NetOp>, b: seq<NetOp>)
    requires SameLastOps(a, b)
    ensures ApplyOps(t, a) == ApplyOps(t, b)
  {
    var ta, tb := ApplyOps(t, a), ApplyOps(t, b);
    forall k: Key
      ensures k in ta <==> k in tb
      ensures k in ta && k in tb ==> ta[k] == tb[k]
    {
      FinalRow(t, a, k);
      FinalRow(t, b, k);
    }
  }

  // ----- the collapse ----------------------------------------------------------------------

  function FirstIndex(ops: seq<NetOp>, k: Key): (i: nat)
    requires Mentions(ops, k)
    ensures i < |ops| && ops[i].key == k && forall j :: 0 <= j < i ==> ops[j].key != k
  {
    var front := ops[..|ops| - 1];
    if Mentions(front, k) then FirstIndex(front, k) else |ops| - 1
  }

  ghost predicate FirstAppearanceOrder(ops: seq<NetOp>, raw: seq<NetOp>) {
    forall i, j :: 0 <= i < j < |ops| && Mentions(raw, ops[i].key) && Mentions(raw, ops[j].key) ==>
      FirstIndex(raw, ops[i].key) < FirstIndex(raw, ops[j].key)
  }

  /** `ops` is the collapse of `raw`: one operation per key, in order of first appearance, each
      the last one the key received. */
  ghost predicate IsCollapseOf(ops: seq<NetOp>, raw: seq<NetOp>) {
    && DistinctKeys(ops)
    && SameLastOps(ops, raw)
    && FirstAppearanceOrder(ops, raw)
  }

  lemma {:induction false} LastOpOfDistinct(ops: seq<NetOp>, i: nat)
    requires DistinctKeys(ops) && i < |ops|
    ensures Mentions(ops, ops[i].key) && LastOp(ops, ops[i].key) == ops[i]
  {
    if i != |ops| - 1 {
      LastOpOfDistinct(ops[..|ops| - 1], i);
    }
  }

  /** Two strictly increasing lists of numbers with the same members are equal. */
  lemma {:induction false} IncreasingIsUnique(a: seq<nat>, b: seq<nat>)
    requires forall i, j :: 0 <= i < j < |a| ==> a[i] < a[j]
    requires forall i, j :: 0 <= i < j < |b| ==> b[i] < b[j]
    requires forall x :: x in a <==> x in b
    ensures a == b
  {
    assert (a != [] ==> a[0] in a) && (b != [] ==> b[0] in b);
    if a != [] && b != [] {
      var x, y := a[|a| - 1], b[|b| - 1];
      assert x in b && y in a;
      assert x == y;
      var a', b' := a[..|a| - 1], b[..|b| - 1];
      forall z ensures z in a' <==> z in b' {
        assert z in a' <==> z in a && z != x;
        assert z in b' <==> z in b && z != y;
      }
      IncreasingIsUnique(a', b');
    }
  }

  /** The three clauses of `IsCollapseOf` leave no freedom: a file has one collapse. */
  lemma CollapseIsUnique(a: seq<NetOp>, b: seq<NetOp>, raw: seq<NetOp>)
    requires IsCollapseOf(a, raw) && IsCollapseOf(b, raw)
    ensures a == b
  {
    var pa := Positions(a, raw);
    var pb := Positions(b, raw);
    IncreasingIsUnique(pa, pb);
    forall i | 0 <= i < |a| ensures a[i] == b[i] {
      assert pa[i] == pb[i];
      LastOpOfDistinct(a, i);
      LastOpOfDistinct(b, i);
    }
  }

  lemma Positions(a: seq<NetOp>, raw: seq<NetOp>) returns (p: seq<nat>)
    requires IsCollapseOf(a, raw)
    ensures |p| == |a|
    ensures forall i :: 0 <= i < |a| ==> p[i] < |raw| && raw[p[i]].key == a[i].key
    ensures forall i, j :: 0 <= i < j < |p| ==> p[i] < p[j]
    ensures forall x :: x in p <==> 0 <= x < |raw| && FirstIndex(raw, raw[x].key) == x
  {
    forall i | 0 <= i < |a| ensures Mentions(raw, a[i].key) {
      assert Mentions(a, a[i].key);
    }
    p := seq(|a|, i requires 0 <= i < |a| => FirstIndex(raw, a[i].key));
    forall x | 0 <= x < |raw| && FirstIndex(raw, raw[x].key) == x ensures x in p {
      assert Mentions(raw, raw[x].key);
      assert Mentions(a, raw[x].key);
      var i :| 0 <= i < |a| && a[i].key == raw[x].key;
      assert p[i] == x;
    }
  }

  /** One step of the fold: overwrite the key's operation in place, or append it. */
  function Fold(acc: seq<NetOp>, op: NetOp): seq<NetOp> {
    if Mentions(acc, op.key) then acc[FirstIndex(acc, op.key) := op] else acc + [op]
  }

  function CollapseOps(raw: seq<NetOp>): seq<NetOp> {
    if raw == [] then [] else Fold(CollapseOps(raw[..|raw| - 1]), raw[|raw| - 1])
  }

  /** The fold computes the collapse. */
  lemma {:induction false} CollapseOpsIsCollapse(raw: seq<NetOp>)
    ensures IsCollapseOf(CollapseOps(raw), raw)
  {
    if raw != [] {
      var front, op := raw[..|raw| - 1], raw[|raw| - 1];
      CollapseOpsIsCollapse(front);
      FoldKeepsCollapse(CollapseOps(front), front, op);
      assert raw == front + [op];
    }
  }

  lemma MentionsSnoc(ops: seq<NetOp>, op: NetOp, k: Key)
    ensures Mentions(ops + [op], k) <==> Mentions(ops, k) || op.key == k
    ensures op.key != k && Mentions(ops, k) ==> LastOp(ops + [op], k) == LastOp(ops, k)
    ensures op.key == k ==> Mentions(ops + [op], k) && LastOp(ops + [op], k) == op
    ensures Mentions(ops, k) ==> FirstIndex(ops + [op], k) == FirstIndex(ops, k)
    ensures op.key == k && !Mentions(ops, k) ==> FirstIndex(ops + [op], k) == |ops|
  {
    var all := ops + [op];
    assert all[..|all| - 1] == ops && all[|all| - 1] == op;
    if Mentions(all, k) && op.key != k {
      var i :| 0 <= i < |all| && all[i].key == k;
      assert ops[i].key == k;
    }
    if Mentions(ops, k) {
      var i :| 0 <= i < |ops| && ops[i].key == k;
      assert all[i].key == k;
    }
    if op.key == k {
      assert all[|ops|].key == k;
    }
  }

  function FoldPlace(acc: seq<NetOp>, op: NetOp): (at: nat)
    ensures at <= |acc| && at < |Fold(acc, op)| && Fold(acc, op)[at] == op
  {
    if Mentions(acc, op.key) then FirstIndex(acc, op.key) else |acc|
  }

  lemma FoldShape(acc: seq<NetOp>, op: NetOp)
    requires DistinctKeys(acc)
    ensures var next := Fold(acc, op);
            && |acc| <= |next| <= |acc| + 1 && DistinctKeys(next)
            && (|next| > |acc| ==> !Mentions(acc, op.key))
            && (forall i :: 0 <= i < |acc| ==> next[i].key == acc[i].key)
            && (forall i :: 0 <= i < |next| && i != FoldPlace(acc, op) ==> next[i] == acc[i])
  {
  }

  lemma FoldKeepsLastOps(acc: seq<NetOp>, raw: seq<NetOp>, op: NetOp, k: Key)
    requires DistinctKeys(acc) && SameLastOps(acc, raw)
    ensures Mentions(Fold(acc, op), k) <==> Mentions(raw + [op], k)
    ensures Mentions(Fold(acc, op), k) && Mentions(raw + [op], k) ==> LastOp(Fold(acc, op), k) == LastOp(raw + [op], k)
  {
    var next := Fold(acc, op);
    FoldShape(acc, op);
    MentionsSnoc(raw, op, k);
    if k == op.key {
      LastOpOfDistinct(next, FoldPlace(acc, op));
    } else {
      assert Mentions(acc, k) <==> Mentions(raw, k);
      if Mentions(acc, k) {
        var i := FirstIndex(acc, k);
        assert next[i] == acc[i];
        LastOpOfDistinct(next, i);
        LastOpOfDistinct(acc, i);
      }
      if Mentions(next, k) {
        var i := FirstIndex(next, k);
        assert acc[i].key == k;
      }
    }
  }

  lemma FoldKeepsOrder(acc: seq<NetOp>, raw: seq<NetOp>, op: NetOp, i: nat, j: nat)
    requires IsCollapseOf(acc, raw) && i < j < |Fold(acc, op)|
    requires Mentions(raw + [op], Fold(acc, op)[i].key) && Mentions(raw + [op], Fold(acc, op)[j].key)
    ensures FirstIndex(raw + [op], Fold(acc, op)[i].key) < FirstIndex(raw + [op], Fold(acc, op)[j].key)
  {
    var next := Fold(acc, op);
    FoldShape(acc, op);
    MentionsSnoc(raw, op, next[i].key);
    MentionsSnoc(raw, op, next[j].key);
    assert Mentions(acc, acc[i].key) && Mentions(raw, acc[i].key);
    if j < |acc| {
      assert Mentions(acc, acc[j].key) && Mentions(raw, acc[j].key);
    }
  }

  lemma FoldKeepsCollapse(acc: seq<NetOp>, raw: seq<NetOp>, op: NetOp)
    requires IsCollapseOf(acc, raw)
    ensures IsCollapseOf(Fold(acc, op), raw + [op])
  {
    var next, raw' := Fold(acc, op), raw + [op];
    FoldShape(acc, op);
    forall k: Key
      ensures Mentions(next, k) <==> Mentions(raw', k)
      ensures Mentions(next, k) && Mentions(raw', k) ==> LastOp(next, k) == LastOp(raw', k)
    {
      FoldKeepsLastOps(acc, raw, op, k);
    }
    forall i, j | 0 <= i < j < |next| && Mentions(raw', next[i].key) && Mentions(raw', next[j].key)
      ensures FirstIndex(raw', next[i].key) < FirstIndex(raw', next[j].key)
    {
      FoldKeepsOrder(acc, raw, op, i, j);
    }
  }

  /** Collapsing a file first changes nothing: its net operations mean what its rows mean. */
  lemma CollapsePreservesMeaning(t: Table, raw: seq<NetOp>)
    ensures ApplyOps(t, CollapseOps(raw)) == ApplyOps(t, raw)
  {
    CollapseOpsIsCollapse(raw);
    SameLastOpsSameMeaning(t, CollapseOps(raw), raw);
  }

  // ----- collapse_net_ops: the loop --------------------------------------------------------

  datatype Stats = Stats(rawRows: nat, skippedShort: nat, distinctPks: nat, collapsed: int,
                         nInsert: nat, nDelete: nat)

  function CountUpserts(ops: seq<NetOp>): nat {
    if ops == [] then 0
    else CountUpserts(ops[..|ops| - 1]) + if ops[|ops| - 1].Upsert? then 1 else 0
  }

  /** A file is refused as a whole when the table has no key column or a data row leaves one
      NULL. */
  predicate Collapsible(ctx: Context, rows: seq<Row>) {
    ctx.keyIdxs != [] && Keyed(ctx, rows)
  }

  lemma RowOpsSnoc(ctx: Context, rows: seq<Row>, i: nat)
    requires i < |rows| && Keyed(ctx, rows[..i])
    ensures IsShort(rows[i]) ==> Keyed(ctx, rows[..i + 1]) && RowOps(ctx, rows[..i + 1]) == RowOps(ctx, rows[..i])
    ensures !IsShort(rows[i]) && HasKey(ctx, rows[i]) ==>
              Keyed(ctx, rows[..i + 1]) &&
              RowOps(ctx, rows[..i + 1]) == RowOps(ctx, rows[..i]) + [RowOp(ctx, rows[i])]
  {
    var next := rows[..i + 1];
    assert next[..i] == rows[..i] && next[i] == rows[i];
    assert forall j :: 0 <= j < i ==> next[j] == rows[..i][j];
  }

  /** The dictionary and the key order, after the operations `raw`. */
  ghost predicate Folded(net: map<Key, NetOp>, ordered: seq<Key>, raw: seq<NetOp>) {
    && (forall k :: k in ordered <==> k in net)
    && (forall k :: k in net ==> net[k].key == k)
    && (forall a, b :: 0 <= a < b < |ordered| ==> ordered[a] != ordered[b])
    && Listed(net, ordered) == CollapseOps(raw)
  }

  lemma FoldedSnoc(net: map<Key, NetOp>, ordered: seq<Key>, raw: seq<NetOp>, op: NetOp)
    requires Folded(net, ordered, raw)
    ensures Folded(net[op.key := op], if op.key in net then ordered else ordered + [op.key], raw + [op])
  {
    ListedFold(net, ordered, op);
    assert (raw + [op])[..|raw|] == raw;
    var ordered' := if op.key in net then ordered else ordered + [op.key];
    assert forall k :: k in ordered' <==> k in ordered || k == op.key;
  }

  // ----- what the raw fields say -----------------------------------------------------------

  lemma {:induction false} KeyFromIs(ctx: Context, row: Row, i: nat)
    requires i <= |ctx.keyIdxs|
    ensures var field := (k: nat) => if k < |row| then Some(row[k]) else None;
            match KeyFrom(ctx, row, i)
            case Some(key) =>
              && |key| == |ctx.keyIdxs| - i
              && forall k :: i <= k < |ctx.keyIdxs| ==> ctx.coerceKey(k, field(ctx.keyIdxs[k])) == Some(key[k - i])
            case None => exists k :: i <= k < |ctx.keyIdxs| && ctx.coerceKey(k, field(ctx.keyIdxs[k])) == None
    decreases |ctx.keyIdxs| - i
  {
    if i < |ctx.keyIdxs| {
      KeyFromIs(ctx, row, i + 1);
    }
  }

  lemma KeyIs(ctx: Context, row: Row, key: Key)
    requires |row| >= 2
    ensures KeyOf(ctx, row) == Some(key) <==> Bears(ctx, row, key)
    ensures HasKey(ctx, row) <==> !NullKey(ctx, row)
  {
    KeyFromIs(ctx, row, 0);
    if KeyOf(ctx, row).Some? && Bears(ctx, row, key) {
      assert KeyOf(ctx, row).value == key;
    }
  }

  lemma RowOpSays(ctx: Context, row: Row)
    requires |row| >= 2 && HasKey(ctx, row)
    ensures Bears(ctx, row, RowOp(ctx, row).key) && SaysRow(ctx, row, RowOp(ctx, row))
    ensures forall key :: Bears(ctx, row, key) ==> key == RowOp(ctx, row).key
  {
    forall key ensures Bears(ctx, row, key) <==> key == RowOp(ctx, row).key {
      KeyIs(ctx, row, key);
    }
  }

  /** One more row: the operations of the file up to it. */
  lemma RowOpsLast(ctx: Context, rows: seq<Row>)
    requires rows != [] && Keyed(ctx, rows)
    ensures var front, last := rows[..|rows| - 1], rows[|rows| - 1];
            && Keyed(ctx, front)
            && (|last| < 2 ==> RowOps(ctx, rows) == RowOps(ctx, front))
            && (|last| >= 2 ==> HasKey(ctx, last) && RowOps(ctx, rows) == RowOps(ctx, front) + [RowOp(ctx, last)])
  {
    assert forall i :: 0 <= i < |rows| - 1 ==> rows[..|rows| - 1][i] == rows[i];
  }

  /** The operations mention the keys that data rows bear, and the last one says what the last row
      says. */
  lemma {:induction false} LastOpIsLastRow(ctx: Context, rows: seq<Row>, key: Key) returns (j: nat)
    requires Keyed(ctx, rows)
    ensures Mentions(RowOps(ctx, rows), key) <==> exists l :: 0 <= l < |rows| && Bears(ctx, rows[l], key)
    ensures Mentions(RowOps(ctx, rows), key) ==>
              LastRow(ctx, rows, j, key) && SaysRow(ctx, rows[j], LastOp(RowOps(ctx, rows), key))
  {
    j := 0;
    if rows != [] {
      var front, last := rows[..|rows| - 1], rows[|rows| - 1];
      RowOpsLast(ctx, rows);
      j := LastOpIsLastRow(ctx, front, key);
      assert forall l :: 0 <= l < |front| ==> rows[l] == front[l];
      if |last| >= 2 {
        RowOpSays(ctx, last);
        MentionsSnoc(RowOps(ctx, front), RowOp(ctx, last), key);
        if Bears(ctx, last, key) {
          j := |rows| - 1;
        }
      }
    }
  }

  /** The second key is not in the file before its last row. */
  lemma LastKeyComesLater(ctx: Context, rows: seq<Row>, front: seq<Row>, a: Key, b: Key)
    requires front <= rows && Keyed(ctx, front)
    requires Mentions(RowOps(ctx, front), a) && !Mentions(RowOps(ctx, front), b)
    ensures AppearsFirst(ctx, rows, a, b)
  {
    var ja := LastOpIsLastRow(ctx, front, a);
    var jb := LastOpIsLastRow(ctx, front, b);
    assert forall l :: 0 <= l < |front| ==> rows[l] == front[l];
    assert Bears(ctx, rows[ja], a);
  }

  lemma AppearsFirstStays(ctx: Context, rows: seq<Row>, front: seq<Row>, a: Key, b: Key)
    requires front <= rows && AppearsFirst(ctx, front, a, b)
    ensures AppearsFirst(ctx, rows, a, b)
  {
    var j :| 0 <= j < |front| && Bears(ctx, front[j], a) && forall l :: 0 <= l <= j ==> !Bears(ctx, front[l], b);
    assert forall l :: 0 <= l < |front| ==> rows[l] == front[l];
    assert Bears(ctx, rows[j], a);
  }

  lemma {:induction false} FirstOpIsFirstRow(ctx: Context, rows: seq<Row>, a: Key, b: Key)
    requires Keyed(ctx, rows) && Mentions(RowOps(ctx, rows), a) && Mentions(RowOps(ctx, rows), b)
    requires FirstIndex(RowOps(ctx, rows), a) < FirstIndex(RowOps(ctx, rows), b)
    ensures AppearsFirst(ctx, rows, a, b)
  {
    var front, last := rows[..|rows| - 1], rows[|rows| - 1];
    RowOpsLast(ctx, rows);
    var raw := RowOps(ctx, front);
    if |last| >= 2 {
      MentionsSnoc(raw, RowOp(ctx, last), a);
      MentionsSnoc(raw, RowOp(ctx, last), b);
    }
    if Mentions(raw, b) {
      FirstOpIsFirstRow(ctx, front, a, b);
      AppearsFirstStays(ctx, rows, front, a, b);
    } else {
      LastKeyComesLater(ctx, rows, front, a, b);
    }
  }

  lemma NetOpSaysRow(ctx: Context, rows: seq<Row>, ops: seq<NetOp>, i: nat)
    requires Keyed(ctx, rows) && IsCollapseOf(ops, RowOps(ctx, rows)) && i < |ops|
    ensures Said(ctx, rows, ops[i])
  {
    LastOpOfDistinct(ops, i);
    var j := LastOpIsLastRow(ctx, rows, ops[i].key);
    assert LastOp(RowOps(ctx, rows), ops[i].key) == ops[i];
  }

  lemma RowHasNetOp(ctx: Context, rows: seq<Row>, ops: seq<NetOp>, j: nat)
    requires Keyed(ctx, rows) && IsCollapseOf(ops, RowOps(ctx, rows)) && j < |rows| && |rows[j]| >= 2
    ensures HasOp(ctx, rows[j], ops)
  {
    RowOpSays(ctx, rows[j]);
    var key := RowOp(ctx, rows[j]).key;
    var last := LastOpIsLastRow(ctx, rows, key);
    assert Mentions(ops, key);
  }

  lemma NetOpsInOrder(ctx: Context, rows: seq<Row>, ops: seq<NetOp>, a: nat, b: nat)
    requires Keyed(ctx, rows) && IsCollapseOf(ops, RowOps(ctx, rows)) && a < b < |ops|
    ensures AppearsFirst(ctx, rows, ops[a].key, ops[b].key)
  {
    assert Mentions(ops, ops[a].key) && Mentions(ops, ops[b].key);
    FirstOpIsFirstRow(ctx, rows, ops[a].key, ops[b].key);
  }

  /** A collapse of the row operations is what the raw fields say. */
  lemma CollapseIsNet(ctx: Context, rows: seq<Row>)
    requires Keyed(ctx, rows)
    ensures NetOf(ctx, rows, CollapseOps(RowOps(ctx, rows)))
  {
    var ops := CollapseOps(RowOps(ctx, rows));
    CollapseOpsIsCollapse(RowOps(ctx, rows));
    assert AllSaid(ctx, rows, ops) by {
      forall i | 0 <= i < |ops| ensures Said(ctx, rows, ops[i]) { NetOpSaysRow(ctx, rows, ops, i); }
    }
    assert NoneMissing(ctx, rows, ops) by {
      forall j | 0 <= j < |rows| && |rows[j]| >= 2 ensures HasOp(ctx, rows[j], ops) { RowHasNetOp(ctx, rows, ops, j); }
    }
    forall a, b | 0 <= a < b < |ops| ensures AppearsFirst(ctx, rows, ops[a].key, ops[b].key) {
      NetOpsInOrder(ctx, rows, ops, a, b);
    }
  }

  /** A file is refused exactly for having no key column, or a data row whose key has a NULL part. */
  lemma RefusedExactly(ctx: Context, rows: seq<Row>)
    ensures Collapsible(ctx, rows) <==>
            ctx.keyIdxs != [] && forall j :: 0 <= j < |rows| ==> !NullKey(ctx, rows[j])
  {
    forall j | 0 <= j < |rows| && |rows[j]| >= 2 ensures HasKey(ctx, rows[j]) <==> !NullKey(ctx, rows[j]) {
      KeyIs(ctx, rows[j], []);
    }
  }

  /** The loop's variables after the first rows of the file. */
  ghost predicate CollapsedSoFar(ctx: Context, rows: seq<Row>, net: map<Key, NetOp>, ordered: seq<Key>,
                                 rawRows: nat, skipped: nat) {
    && Keyed(ctx, rows) && Folded(net, ordered, RowOps(ctx, rows))
    && rawRows == |RowOps(ctx, rows)| == |rows| - skipped && skipped == ShortLines(rows)
  }

  lemma SkipsLine(ctx: Context, rows: seq<Row>, i: nat, net: map<Key, NetOp>, ordered: seq<Key>, rawRows: nat,
                  skipped: nat)
    requires i < |rows| && CollapsedSoFar(ctx, rows[..i], net, ordered, rawRows, skipped) && IsShort(rows[i])
    ensures CollapsedSoFar(ctx, rows[..i + 1], net, ordered, rawRows, skipped + 1)
  {
    RowOpsSnoc(ctx, rows, i);
    assert rows[..i + 1][..i] == rows[..i];
  }

  lemma TakesRow(ctx: Context, rows: seq<Row>, i: nat, net: map<Key, NetOp>, ordered: seq<Key>, rawRows: nat,
                 skipped: nat)
    requires i < |rows| && CollapsedSoFar(ctx, rows[..i], net, ordered, rawRows, skipped)
    requires !IsShort(rows[i]) && HasKey(ctx, rows[i])
    ensures var op := RowOp(ctx, rows[i]);
            CollapsedSoFar(ctx, rows[..i + 1], net[op.key := op],
                           if op.key in net then ordered else ordered + [op.key], rawRows + 1, skipped)
  {
    RowOpsSnoc(ctx, rows, i);
    assert rows[..i + 1][..i] == rows[..i];
    FoldedSnoc(net, ordered, RowOps(ctx, rows[..i]), RowOp(ctx, rows[i]));
  }

  /** The pass over the rows: a dictionary of the last operation per key and the list of keys in order
      of first appearance; it stops at a data row without a whole key. */
  method FoldRows(ctx: Context, rows: seq<Row>)
    returns (refused: bool, net: map<Key, NetOp>, ordered: seq<Key>, rawRows: nat, skipped: nat)
    ensures refused <==> !Keyed(ctx, rows)
    ensures !refused ==> CollapsedSoFar(ctx, rows, net, ordered, rawRows, skipped)
  {
    refused, net, ordered, rawRows, skipped := false, map[], [], 0, 0;
    for i := 0 to |rows|
      invariant CollapsedSoFar(ctx, rows[..i], net, ordered, rawRows, skipped)
    {
      var row := rows[i];
      if IsShort(row) {
        SkipsLine(ctx, rows, i, net, ordered, rawRows, skipped);
        skipped := skipped + 1;
        continue;
      }
      var key := KeyOf(ctx, row);
      if key == None {
        assert !HasKey(ctx, rows[i]);
        refused := true;
        return;
      }
      TakesRow(ctx, rows, i, net, ordered, rawRows, skipped);
      rawRows := rawRows + 1;
      var op := RowOp(ctx, row);
      if op.key !in net {
        ordered := ordered + [op.key];
      }
      net := net[op.key := op];
    }
    assert rows[..|rows|] == rows;
  }

  /** The counters of a collapse. */
  predicate StatsOk(ctx: Context, rows: seq<Row>, netops: seq<NetOp>, s: Stats)
    requires Keyed(ctx, rows)
  {
    && s.rawRows == |RowOps(ctx, rows)| == |rows| - s.skippedShort && s.skippedShort == ShortLines(rows)
    && s.distinctPks == |netops| == s.nInsert + s.nDelete && s.nInsert == CountUpserts(netops)
    && s.collapsed == s.rawRows - s.distinctPks
  }

  /** `collapse_net_ops`. */
  method CollapseNetOps(ctx: Context, rows: seq<Row>) returns (r: Result<(seq<NetOp>, Stats), ()>)
    ensures r.Ok? <==> Collapsible(ctx, rows)
    ensures r.Ok? <==> ctx.keyIdxs != [] && forall j :: 0 <= j < |rows| ==> !NullKey(ctx, rows[j])
    ensures r.Ok? ==> r.value.0 == CollapseOps(RowOps(ctx, rows)) && StatsOk(ctx, rows, r.value.0, r.value.1)
    ensures r.Ok? ==> NetOf(ctx, rows, r.value.0)
  {
    RefusedExactly(ctx, rows);
    if ctx.keyIdxs == [] {
      return Err(());
    }
    var refused, net, ordered, rawRows, skipped := FoldRows(ctx, rows);
    if refused {
      return Err(());
    }
    CollapseIsNet(ctx, rows);
    var netops := Listed(net, ordered);
    var nInsert := CountInserts(netops);
    r := Ok((netops, Stats(rawRows, skipped, |netops|, rawRows - |netops|, nInsert, |netops| - nInsert)));
  }

  method CountInserts(netops: seq<NetOp>) returns (nInsert: nat)
    ensures nInsert == CountUpserts(netops) <= |netops|
  {
    nInsert := 0;
    for i := 0 to |netops|
      invariant nInsert == CountUpserts(netops[..i]) <= i
    {
      assert netops[..i + 1][..i] == netops[..i];
      if netops[i].Upsert? {
        nInsert := nInsert + 1;
      }
    }
    assert netops[..|netops|] == netops;
  }

  function Listed(net: map<Key, NetOp>, ordered: seq<Key>): seq<NetOp>
    requires forall k :: k in ordered ==> k in net
  {
    seq(|ordered|, i requires 0 <= i < |ordered| => net[ordered[i]])
  }

  lemma ListedFold(net: map<Key, NetOp>, ordered: seq<Key>, op: NetOp)
    requires forall k :: k in ordered <==> k in net
    requires forall k :: k in net ==> net[k].key == k
    requires forall a, b :: 0 <= a < b < |ordered| ==> ordered[a] != ordered[b]
    ensures var ordered' := if op.key in net then ordered else ordered + [op.key];
            Listed(net[op.key := op], ordered') == Fold(Listed(net, ordered), op)
  {
    var acc := Listed(net, ordered);
    if op.key in net {
      var i :| 0 <= i < |ordered| && ordered[i] == op.key;
      assert acc[i].key == op.key;
      assert FirstIndex(acc, op.key) == i;
    } else {
      forall i | 0 <= i < |acc| ensures acc[i].key != op.key {
        assert ordered[i] in net;
      }
      assert !Mentions(acc, op.key);
    }
  }

  /** The file's own reconciliation check, `raw_rows == distinct_pks + collapsed`, holds of every
      file because `collapsed` is computed from the other two; what the counters do establish
      is that a key folded away is one the file named before. */
  lemma {:induction false} CollapseNeverGrows(raw: seq<NetOp>)
    ensures |CollapseOps(raw)| <= |raw|
    ensures |CollapseOps(raw)| == |raw| <==> DistinctKeys(raw)
  {
    if raw != [] {
      var front, op := raw[..|raw| - 1], raw[|raw| - 1];
      CollapseNeverGrows(front);
      CollapseOpsIsCollapse(front);
      assert Mentions(CollapseOps(front), op.key) <==> Mentions(front, op.key);
      DistinctSnoc(front, op);
      assert raw == front + [op];
    }
  }

  lemma DistinctSnoc(ops: seq<NetOp>, op: NetOp)
    ensures DistinctKeys(ops + [op]) <==> DistinctKeys(ops) && !Mentions(ops, op.key)
  {
    var all := ops + [op];
    assert forall i :: 0 <= i < |ops| ==> all[i] == ops[i];
    if Mentions(ops, op.key) {
      var i :| 0 <= i < |ops| && ops[i].key == op.key;
      assert all[i].key == all[|ops|].key;
    }
  }

  // ----- build_chunk_sql -------------------------------------------------------------------

  datatype Stmt = DeleteRow(key: Key) | InsertOnConflict(rows: seq<(Key, Image)>)

  function Deletes(ops: seq<NetOp>): seq<Stmt> {
    if ops == [] then []
    else
      var rest := Deletes(ops[..|ops| - 1]);
      if ops[|ops| - 1].Delete? then rest + [DeleteRow(ops[|ops| - 1].key)] else rest
  }

  function Values(ops: seq<NetOp>): seq<(Key, Image)> {
    if ops == [] then []
    else
      var rest := Values(ops[..|ops| - 1]);
      if ops[|ops| - 1].Upsert? then rest + [(ops[|ops| - 1].key, ops[|ops| - 1].image)] else rest
  }

  function BuildChunkSql(ops: seq<NetOp>): seq<Stmt> {
    Deletes(ops) + if Values(ops) == [] then [] else [InsertOnConflict(Values(ops))]
  }

  /** `INSERT ... ON CONFLICT (key) DO UPDATE SET c = EXCLUDED.c, ...`: an existing row keeps any
      column the statement does not name.  (With no data column it is `DO NOTHING`, which is
      the same merge with an empty image.) */
  function UpsertRows(t: Table, rows: seq<(Key, Image)>): Table {
    if rows == [] then t
    else
      var t', (k, img) := UpsertRows(t, rows[..|rows| - 1]), rows[|rows| - 1];
      t'[k := if k in t' then t'[k] + img else img]
  }

  function ExecStmt(t: Table, s: Stmt): Table {
    match s
    case DeleteRow(k) => t - {k}
    case InsertOnConflict(rows) => UpsertRows(t, rows)
  }

  function ExecStmts(t: Table, stmts: seq<Stmt>): Table {
    if stmts == [] then t else ExecStmt(ExecStmts(t, stmts[..|stmts| - 1]), stmts[|stmts| - 1])
  }

  function ExecChunk(t: Table, ops: seq<NetOp>): Table { ExecStmts(t, BuildChunkSql(ops)) }

  /** What the missing-column check of `apply_file` guarantees: the file writes every non-key
      column of the target. */
  predicate FullImages(cols: set<string>, ops: seq<NetOp>) {
    forall i :: 0 <= i < |ops| && ops[i].Upsert? ==> ops[i].image.Keys == cols
  }

  predicate HasColumns(cols: set<string>, t: Table) {
    forall k :: k in t ==> t[k].Keys == cols
  }

  lemma {:induction false} ApplyKeepsColumns(cols: set<string>, t: Table, ops: seq<NetOp>)
    requires HasColumns(cols, t) && FullImages(cols, ops)
    ensures HasColumns(cols, ApplyOps(t, ops))
  {
    if ops != [] {
      assert forall i :: 0 <= i < |ops| - 1 ==> ops[..|ops| - 1][i] == ops[i];
      ApplyKeepsColumns(cols, t, ops[..|ops| - 1]);
    }
  }

  lemma UpsertWithout(t: Table, rows: seq<(Key, Image)>, k: Key)
    requires forall i :: 0 <= i < |rows| ==> rows[i].0 != k
    ensures UpsertRows(t - {k}, rows) == UpsertRows(t, rows) - {k}
  {
    if rows != [] {
      UpsertWithout(t, rows[..|rows| - 1], k);
    }
  }

  lemma {:induction false} ValuesAreOps(ops: seq<NetOp>, k: Key)
    requires !Mentions(ops, k)
    ensures forall i :: 0 <= i < |Values(ops)| ==> Values(ops)[i].0 != k
  {
    if ops != [] {
      var front := ops[..|ops| - 1];
      forall i | 0 <= i < |front| ensures front[i].key != k { assert ops[i].key != k; }
      assert ops[|ops| - 1].key != k;
      ValuesAreOps(front, k);
    }
  }

  lemma ExecChunkTwoPhases(t: Table, ops: seq<NetOp>)
    ensures ExecChunk(t, ops) == UpsertRows(ExecStmts(t, Deletes(ops)), Values(ops))
  {
    var stmts := BuildChunkSql(ops);
    if Values(ops) == [] {
      assert stmts == Deletes(ops);
    } else {
      assert stmts[..|stmts| - 1] == Deletes(ops);
    }
  }

  lemma ChunkThenDelete(t: Table, front: seq<NetOp>, k: Key)
    requires !Mentions(front, k)
    ensures ExecChunk(t, front + [Delete(k)]) == ExecChunk(t, front) - {k}
  {
    var ops := front + [Delete(k)];
    assert ops[..|front|] == front;
    ExecChunkTwoPhases(t, ops);
    ExecChunkTwoPhases(t, front);
    assert (Deletes(front) + [DeleteRow(k)])[..|Deletes(front)|] == Deletes(front);
    ValuesAreOps(front, k);
    UpsertWithout(ExecStmts(t, Deletes(front)), Values(front), k);
  }

  lemma ChunkThenUpsert(t: Table, front: seq<NetOp>, k: Key, img: Image)
    ensures ExecChunk(t, front + [Upsert(k, img)])
            == var t' := ExecChunk(t, front); t'[k := if k in t' then t'[k] + img else img]
  {
    var ops := front + [Upsert(k, img)];
    assert ops[..|front|] == front;
    ExecChunkTwoPhases(t, ops);
    ExecChunkTwoPhases(t, front);
    assert (Values(front) + [(k, img)])[..|Values(front)|] == Values(front);
  }

  /** Deletes first, then one multi-row upsert, is the same as the operations in order, because
      a chunk names each key once. */
  lemma {:induction false} ChunkRunsItsOps(cols: set<string>, t: Table, ops: seq<NetOp>)
    requires DistinctKeys(ops) && FullImages(cols, ops) && HasColumns(cols, t)
    ensures ExecChunk(t, ops) == ApplyOps(t, ops)
  {
    if ops == [] {
      ExecChunkTwoPhases(t, ops);
    } else {
      var front, op := ops[..|ops| - 1], ops[|ops| - 1];
      assert forall i :: 0 <= i < |front| ==> front[i] == ops[i];
      ChunkRunsItsOps(cols, t, front);
      ApplyKeepsColumns(cols, t, front);
      assert ops == front + [op];
      match op
      case Delete(k) =>
        ChunkThenDelete(t, front, k);
      case Upsert(k, img) =>
        ChunkThenUpsert(t, front, k, img);
        var t' := ApplyOps(t, front);
        assert k in t' ==> t'[k] + img == img;
    }
  }

  function Flatten(chunks: seq<seq<NetOp>>): seq<NetOp> {
    if chunks == [] then [] else Flatten(chunks[..|chunks| - 1]) + chunks[|chunks| - 1]
  }

  function ExecChunks(t: Table, chunks: seq<seq<NetOp>>): Table {
    if chunks == [] then t
    else ExecChunk(ExecChunks(t, chunks[..|chunks| - 1]), chunks[|chunks| - 1])
  }

  lemma {:induction false} ChunksRunTheirOps(cols: set<string>, t: Table, chunks: seq<seq<NetOp>>)
    requires DistinctKeys(Flatten(chunks)) && FullImages(cols, Flatten(chunks)) && HasColumns(cols, t)
    ensures ExecChunks(t, chunks) == ApplyOps(t, Flatten(chunks))
  {
    if chunks != [] {
      var front, last := chunks[..|chunks| - 1], chunks[|chunks| - 1];
      var all := Flatten(chunks);
      assert forall i :: 0 <= i < |Flatten(front)| ==> Flatten(front)[i] == all[i];
      assert forall i :: 0 <= i < |last| ==> last[i] == all[|Flatten(front)| + i];
      ChunksRunTheirOps(cols, t, front);
      ApplyKeepsColumns(cols, t, Flatten(front));
      ChunkRunsItsOps(cols, ApplyOps(t, Flatten(front)), last);
      ApplyOpsConcat(t, Flatten(front), last);
    }
  }

  lemma CollapseKeepsImages(cols: set<string>, raw: seq<NetOp>)
    requires FullImages(cols, raw)
    ensures FullImages(cols, CollapseOps(raw))
  {
    CollapseOpsIsCollapse(raw);
    var ops := CollapseOps(raw);
    forall i | 0 <= i < |ops| && ops[i].Upsert? ensures ops[i].image.Keys == cols {
      LastOpOfDistinct(ops, i);
      assert LastOp(raw, ops[i].key) == ops[i];
    }
  }

  lemma {:induction false} RowOpsWriteEveryColumn(ctx: Context, rows: seq<Row>)
    requires Keyed(ctx, rows)
    ensures FullImages(ctx.colIdx.Keys, RowOps(ctx, rows))
  {
    if rows != [] {
      assert forall i :: 0 <= i < |rows| - 1 ==> rows[..|rows| - 1][i] == rows[i];
      RowOpsWriteEveryColumn(ctx, rows[..|rows| - 1]);
    }
  }

  /** However a file's net operations are cut into chunks, running the chunks in order gives
      the table that applying every raw row in file order gives. */
  lemma CollapsedChunksPreserveMeaning(ctx: Context, t: Table, rows: seq<Row>, chunks: seq<seq<NetOp>>)
    requires Keyed(ctx, rows) && HasColumns(ctx.colIdx.Keys, t)
    requires Flatten(chunks) == CollapseOps(RowOps(ctx, rows))
    ensures ExecChunks(t, chunks) == ApplyOps(t, RowOps(ctx, rows))
  {
    var raw := RowOps(ctx, rows);
    RowOpsWriteEveryColumn(ctx, rows);
    CollapseKeepsImages(ctx.colIdx.Keys, raw);
    CollapseOpsIsCollapse(raw);
    ChunksRunTheirOps(ctx.colIdx.Keys, t, chunks);
    CollapsePreservesMeaning(t, raw);
  }

  /** A key inserted and later deleted in one file is not dropped: the file still sends the
      delete, and a row the target already held goes away. */
  lemma InsertThenDeleteStillDeletes(k: Key, img: Image)
    ensures CollapseOps([Upsert(k, img), Delete(k)]) == [Delete(k)]
    ensures forall t: Table :: k !in ApplyOps(t, CollapseOps([Upsert(k, img), Delete(k)]))
  {
    var raw := [Upsert(k, img), Delete(k)];
    assert raw[..1] == [Upsert(k, img)];
    assert raw[..1][..0] == [];
    var acc := [Upsert(k, img)];
    assert CollapseOps(raw[..1]) == acc;
    assert acc[0].key == k;
    assert FirstIndex(acc, k) == 0;
    assert CollapseOps(raw) == acc[0 := Delete(k)] == [Delete(k)];
    forall t: Table ensures k !in ApplyOps(t, [Delete(k)]) {
      assert [Delete(k)][..0] == [];
    }
  }
}
