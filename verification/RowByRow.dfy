/**
 What the apply engine leaves, said of the raw rows of the files alone, without net operations: for
 every key the last data row that bears it decides (scripts/glue_cdc_composite.py).
 */
module RowByRow {
  import opened Util
  import opened ChangeRows
  import opened NetOps
  import opened ApplyProtocol
  import opened ApplySafety
  import opened ApplyTheorems

  /** The table holds for this key what the row says: nothing after a D, otherwise the converted field
      of every column. */
  predicate Decides(ctx: Context, row: Row, t: Table, key: Key) {
    if ctx.opIdx < |row| && (row[ctx.opIdx] == "D" || row[ctx.opIdx] == "d") then key !in t
    else
      && key in t && t[key].Keys == ctx.colIdx.Keys
      && forall c :: c in ctx.colIdx ==>
           t[key][c] == ctx.convert(c, if ctx.colIdx[c] < |row| then Some(row[ctx.colIdx[c]]) else None)
  }

  predicate NoRow(ctx: Context, f: File, key: Key) {
    forall j :: 0 <= j < |f.rows| ==> !Bears(ctx, f.rows[j], key)
  }

  /** Row `j` of file `i` is the last one with this key, in file order. */
  predicate LastOfAll(ctx: Context, files: seq<File>, i: nat, j: nat, key: Key) {
    && i < |files| && LastRow(ctx, files[i].rows, j, key)
    && forall l :: i < l < |files| ==> NoRow(ctx, files[l], key)
  }

  predicate SameRow(t: Table, t': Table, key: Key) {
    (key in t <==> key in t') && (key in t ==> key in t' && t[key] == t'[key])
  }

  /** One file: without a row of the key nothing happens to it, otherwise the last such row decides. */
  lemma FileLeavesAlone(ctx: Context, t: Table, f: File, key: Key)
    requires Keyed(ctx, f.rows) && NoRow(ctx, f, key)
    ensures SameRow(t, ApplyOps(t, RawOps(ctx, f)), key)
  {
    var j := LastOpIsLastRow(ctx, f.rows, key);
    FinalRow(t, RawOps(ctx, f), key);
  }

  lemma FileDecides(ctx: Context, t: Table, f: File, j: nat, key: Key)
    requires Keyed(ctx, f.rows) && LastRow(ctx, f.rows, j, key)
    ensures Decides(ctx, f.rows[j], ApplyOps(t, RawOps(ctx, f)), key)
  {
    var last := LastOpIsLastRow(ctx, f.rows, key);
    assert Bears(ctx, f.rows[last], key) && last == j;
    FinalRow(t, RawOps(ctx, f), key);
  }

  lemma {:induction false} FilesLeaveAlone(ctx: Context, baseline: Table, files: seq<File>, key: Key)
    requires forall i :: 0 <= i < |files| ==> Keyed(ctx, files[i].rows) && NoRow(ctx, files[i], key)
    ensures SameRow(baseline, FullTable(ctx, baseline, files), key)
  {
    if files != [] {
      var n := |files| - 1;
      FilesLeaveAlone(ctx, baseline, files[..n], key);
      FileLeavesAlone(ctx, FullTable(ctx, baseline, files[..n]), files[n], key);
    }
  }

  lemma {:induction false} LastRowDecides(ctx: Context, baseline: Table, files: seq<File>, i: nat, j: nat, key: Key)
    requires forall l :: 0 <= l < |files| ==> Keyed(ctx, files[l].rows)
    requires LastOfAll(ctx, files, i, j, key)
    ensures Decides(ctx, files[i].rows[j], FullTable(ctx, baseline, files), key)
  {
    var n := |files| - 1;
    if i < n {
      LastRowDecides(ctx, baseline, files[..n], i, j, key);
      FileLeavesAlone(ctx, FullTable(ctx, baseline, files[..n]), files[n], key);
    } else {
      FileDecides(ctx, FullTable(ctx, baseline, files[..n]), files[n], j, key);
    }
  }

  /** In every reachable state between files the target holds, for each key, what the last data row of
      the files up to the mark says: no row after a D, otherwise that row's values; a key no data row
      bears is as the full load left it. */
  lemma TargetHoldsTheLastRows(s: State, steps: seq<Step>, key: Key)
    requires Init(s) && Legal(s, steps) && Exec(s, steps).db.pos.inProgress == None
    ensures
      var e := Exec(s, steps);
      var done := e.folder[..DoneCount(e.folder, e.db.pos.lastDone)];
      && ((forall i :: 0 <= i < |done| ==> NoRow(e.ctx, done[i], key)) ==> SameRow(e.baseline, e.db.target, key))
      && forall i: nat, j: nat :: LastOfAll(e.ctx, done, i, j, key) ==>
            Decides(e.ctx, done[i].rows[j], e.db.target, key)
  {
    TargetIsExactlyTheClaim(s, steps);
    var e := Exec(s, steps);
    var done := e.folder[..DoneCount(e.folder, e.db.pos.lastDone)];
    if forall i :: 0 <= i < |done| ==> NoRow(e.ctx, done[i], key) {
      FilesLeaveAlone(e.ctx, e.baseline, done, key);
    }
    forall i: nat, j: nat | LastOfAll(e.ctx, done, i, j, key)
      ensures Decides(e.ctx, done[i].rows[j], e.db.target, key)
    {
      LastRowDecides(e.ctx, e.baseline, done, i, j, key);
    }
  }
}
