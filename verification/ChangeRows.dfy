/**
 A change file's raw rows and its net operations, and what the raw fields say the net operations are
 (`collapse_net_ops` of scripts/glue_cdc_composite.py).
 */
module ChangeRows {
  import opened Util

  type Row = seq<string>
  type Key = seq<string>
  /** The non-key columns of one target row. */
  type Image = map<string, Option<string>>
  type Table = map<Key, Image>

  datatype NetOp = Delete(key: Key) | Upsert(key: Key, image: Image)

  /** What `apply_file` resolves before it collapses a file: where the operation code, the key
      columns and the non-key insert columns are in the header, and the value conversions. */
  datatype Context = Context(
    opIdx: nat,
    keyIdxs: seq<nat>,
    colIdx: map<string, nat>,
    coerceKey: (nat, Option<string>) -> Option<string>,
    convert: (string, Option<string>) -> Option<string>)

  // ----- what the raw fields say -----------------------------------------------------------

  /** The data row's key columns, coerced, are this key. */
  predicate Bears(ctx: Context, row: Row, key: Key) {
    && |row| >= 2 && |key| == |ctx.keyIdxs|
    && forall i :: 0 <= i < |key| ==>
         ctx.coerceKey(i, if ctx.keyIdxs[i] < |row| then Some(row[ctx.keyIdxs[i]]) else None) == Some(key[i])
  }

  /** The operation is a DELETE exactly for the letter D; otherwise it writes, for every column, the
      converted field of this row. */
  predicate SaysRow(ctx: Context, row: Row, op: NetOp) {
    && (op.Delete? <==> ctx.opIdx < |row| && (row[ctx.opIdx] == "D" || row[ctx.opIdx] == "d"))
    && (op.Upsert? ==>
          && op.image.Keys == ctx.colIdx.Keys
          && forall c :: c in ctx.colIdx ==>
               op.image[c] == ctx.convert(c, if ctx.colIdx[c] < |row| then Some(row[ctx.colIdx[c]]) else None))
  }

  /** The last data row with this key. */
  predicate LastRow(ctx: Context, rows: seq<Row>, j: nat, key: Key) {
    j < |rows| && Bears(ctx, rows[j], key) && forall l :: j < l < |rows| ==> !Bears(ctx, rows[l], key)
  }

  /** The operation says what the last data row of its key says. */
  ghost predicate Said(ctx: Context, rows: seq<Row>, op: NetOp) {
    exists j: nat :: LastRow(ctx, rows, j, op.key) && SaysRow(ctx, rows[j], op)
  }

  /** Of two keys, this one appears first. */
  ghost predicate AppearsFirst(ctx: Context, rows: seq<Row>, a: Key, b: Key) {
    exists j :: 0 <= j < |rows| && Bears(ctx, rows[j], a) && forall l :: 0 <= l <= j ==> !Bears(ctx, rows[l], b)
  }

  ghost predicate AllSaid(ctx: Context, rows: seq<Row>, ops: seq<NetOp>) {
    forall i :: 0 <= i < |ops| ==> Said(ctx, rows, ops[i])
  }

  ghost predicate HasOp(ctx: Context, row: Row, ops: seq<NetOp>) {
    exists i :: 0 <= i < |ops| && Bears(ctx, row, ops[i].key)
  }

  ghost predicate NoneMissing(ctx: Context, rows: seq<Row>, ops: seq<NetOp>) {
    forall j :: 0 <= j < |rows| && |rows[j]| >= 2 ==> HasOp(ctx, rows[j], ops)
  }

  ghost predicate InFileOrder(ctx: Context, rows: seq<Row>, ops: seq<NetOp>) {
    forall a, b :: 0 <= a < b < |ops| ==> AppearsFirst(ctx, rows, ops[a].key, ops[b].key)
  }

  /** What a file's net operations are, said of its raw fields alone: one for each key that a data row
      bears, in order of first appearance, each saying what the last data row of its key says. */
  ghost predicate NetOf(ctx: Context, rows: seq<Row>, ops: seq<NetOp>) {
    AllSaid(ctx, rows, ops) && NoneMissing(ctx, rows, ops) && InFileOrder(ctx, rows, ops)
  }

  /** Malformed lines, of fewer than two fields. */
  function ShortLines(rows: seq<Row>): nat {
    if rows == [] then 0 else ShortLines(rows[..|rows| - 1]) + if |rows[|rows| - 1]| < 2 then 1 else 0
  }

  /** A data row whose key has a NULL part. */
  predicate NullKey(ctx: Context, row: Row) {
    && |row| >= 2
    && (exists i :: 0 <= i < |ctx.keyIdxs|
          && ctx.coerceKey(i, if ctx.keyIdxs[i] < |row| then Some(row[ctx.keyIdxs[i]]) else None) == None)
  }
}
