/**
 The keyless apply (`collapse_net_ops_nonpk` and `apply_file_nonpk` of
 scripts/glue_cdc_composite.py): a table without a key takes inserts and deletes by full content,
 every inserted row carries the file's tag, and a restarted file first purges its own tag.

 `KeylessReloadConverges` is the main result: whatever crashes, lost acknowledgements and second
 runs there are, a completed file leaves exactly one uninterrupted purge, deletes, inserts.
 */
module Keyless {
  import opened Util

  type Content = map<string, Option<string>>

  datatype Op = Delete(content: Content) | Insert(content: Content)

  /** A target row with its `_cdc_file` tag.  A table is the list of its rows. */
  datatype TRow = TRow(content: Content, tag: Option<string>)

  type Table = seq<TRow>

  // ----- collapse_net_ops_nonpk ------------------------------------------------------------

  /** A raw row: its operation letter, as upper-cased, and its converted content. */
  datatype Raw = Short | Change(op: string, content: Content)

  function KeptOps(rows: seq<Raw>): seq<Op> {
    if rows == [] then []
    else
      var r := rows[|rows| - 1];
      KeptOps(rows[..|rows| - 1]) +
      if r.Short? || r.op == "U" then [] else if r.op == "D" then [Delete(r.content)] else [Insert(r.content)]
  }

  function SkippedUpdates(rows: seq<Raw>): seq<Content> {
    if rows == [] then []
    else
      var r := rows[|rows| - 1];
      SkippedUpdates(rows[..|rows| - 1]) + if r.Change? && r.op == "U" then [r.content] else []
  }

  /** The places of the rows that are deletes or inserts (or of any letter but U), or of the updates. */
  predicate PlacesOf(rows: seq<Raw>, updates: bool, at: seq<nat>) {
    && (forall k :: 0 <= k < |at| ==> at[k] < |rows| && rows[at[k]].Change? && (rows[at[k]].op == "U" <==> updates))
    && (forall i :: 0 <= i < |rows| && rows[i].Change? && (rows[i].op == "U" <==> updates) ==> i in at)
    && (forall j, k :: 0 <= j < k < |at| ==> at[j] < at[k])
  }

  /** The operations of the rows at these places: a delete if the letter is D, an insert otherwise. */
  predicate OpsAt(rows: seq<Raw>, at: seq<nat>, netops: seq<Op>) {
    && |netops| == |at|
    && forall k :: 0 <= k < |at| ==>
        && at[k] < |rows| && rows[at[k]].Change?
        && netops[k] == if rows[at[k]].op == "D" then Delete(rows[at[k]].content) else Insert(rows[at[k]].content)
  }

  /** Every row that is no update is kept, in the order of the file. */
  ghost predicate OpsOf(rows: seq<Raw>, netops: seq<Op>) {
    exists at :: PlacesOf(rows, false, at) && OpsAt(rows, at, netops)
  }

  predicate ContentsAt(rows: seq<Raw>, at: seq<nat>, contents: seq<Content>) {
    && |contents| == |at|
    && forall k :: 0 <= k < |at| ==> at[k] < |rows| && rows[at[k]].Change? && contents[k] == rows[at[k]].content
  }

  ghost predicate UpdatesOf(rows: seq<Raw>, skipped: seq<Content>) {
    exists at :: PlacesOf(rows, true, at) && ContentsAt(rows, at, skipped)
  }

  lemma PlacesNext(rows: seq<Raw>, updates: bool, at: seq<nat>, r: Raw)
    requires PlacesOf(rows, updates, at)
    ensures PlacesOf(rows + [r], updates, if r.Change? && (r.op == "U" <==> updates) then at + [|rows|] else at)
  {
    var more := if r.Change? && (r.op == "U" <==> updates) then at + [|rows|] else at;
    assert forall i :: 0 <= i < |rows| ==> (rows + [r])[i] == rows[i];
    assert forall k :: 0 <= k < |at| ==> more[k] == at[k];
    forall i | 0 <= i < |rows + [r]| && (rows + [r])[i].Change? && ((rows + [r])[i].op == "U" <==> updates)
      ensures i in more
    {
      if i == |rows| {
        assert more[|at|] == i;
      }
    }
  }

  lemma OpsNext(rows: seq<Raw>, at: seq<nat>, netops: seq<Op>, r: Raw)
    requires OpsAt(rows, at, netops)
    ensures OpsAt(rows + [r], at, netops)
    ensures r.Change? ==> OpsAt(rows + [r], at + [|rows|],
                                netops + [if r.op == "D" then Delete(r.content) else Insert(r.content)])
  {
    assert forall i :: 0 <= i < |rows| ==> (rows + [r])[i] == rows[i];
  }

  lemma {:induction false} KeptAreOps(rows: seq<Raw>) returns (at: seq<nat>)
    ensures PlacesOf(rows, false, at) && OpsAt(rows, at, KeptOps(rows))
  {
    if rows == [] {
      at := [];
    } else {
      var before := KeptAreOps(rows[..|rows| - 1]);
      at := OneMoreKept(rows[..|rows| - 1], rows[|rows| - 1], before);
      assert rows[..|rows| - 1] + [rows[|rows| - 1]] == rows;
    }
  }

  lemma KeptNext(rows: seq<Raw>, r: Raw)
    ensures KeptOps(rows + [r]) == KeptOps(rows) +
              if r.Short? || r.op == "U" then [] else if r.op == "D" then [Delete(r.content)] else [Insert(r.content)]
  {
    assert (rows + [r])[..|rows|] == rows;
  }

  lemma OneMoreKept(rows: seq<Raw>, r: Raw, before: seq<nat>) returns (at: seq<nat>)
    requires PlacesOf(rows, false, before) && OpsAt(rows, before, KeptOps(rows))
    ensures PlacesOf(rows + [r], false, at) && OpsAt(rows + [r], at, KeptOps(rows + [r]))
  {
    PlacesNext(rows, false, before, r);
    OpsNext(rows, before, KeptOps(rows), r);
    KeptNext(rows, r);
    at := if r.Change? && r.op != "U" then before + [|rows|] else before;
  }

  lemma {:induction false} SkippedAreUpdates(rows: seq<Raw>) returns (at: seq<nat>)
    ensures PlacesOf(rows, true, at) && ContentsAt(rows, at, SkippedUpdates(rows))
  {
    if rows == [] {
      at := [];
    } else {
      var before := SkippedAreUpdates(rows[..|rows| - 1]);
      at := OneMoreSkipped(rows[..|rows| - 1], rows[|rows| - 1], before);
      assert rows[..|rows| - 1] + [rows[|rows| - 1]] == rows;
    }
  }

  lemma ContentsNext(rows: seq<Raw>, at: seq<nat>, contents: seq<Content>, r: Raw)
    requires ContentsAt(rows, at, contents)
    ensures ContentsAt(rows + [r], at, contents)
    ensures r.Change? ==> ContentsAt(rows + [r], at + [|rows|], contents + [r.content])
  {
    assert forall i :: 0 <= i < |rows| ==> (rows + [r])[i] == rows[i];
  }

  lemma SkippedNext(rows: seq<Raw>, r: Raw)
    ensures SkippedUpdates(rows + [r]) == SkippedUpdates(rows) + if r.Change? && r.op == "U" then [r.content] else []
  {
    assert (rows + [r])[..|rows|] == rows;
  }

  lemma OneMoreSkipped(rows: seq<Raw>, r: Raw, before: seq<nat>) returns (at: seq<nat>)
    requires PlacesOf(rows, true, before) && ContentsAt(rows, before, SkippedUpdates(rows))
    ensures PlacesOf(rows + [r], true, at) && ContentsAt(rows + [r], at, SkippedUpdates(rows + [r]))
  {
    PlacesNext(rows, true, before, r);
    ContentsNext(rows, before, SkippedUpdates(rows), r);
    SkippedNext(rows, r);
    at := if r.Change? && r.op == "U" then before + [|rows|] else before;
  }

  /** One pass, in file order, with no folding: inserts and deletes are kept, updates set aside. */
  method CollapseNonPk(rows: seq<Raw>)
    returns (netops: seq<Op>, skipped: seq<Content>, nInsert: nat, nDelete: nat, nShort: nat)
    ensures netops == KeptOps(rows) && skipped == SkippedUpdates(rows)
    ensures OpsOf(rows, netops) && UpdatesOf(rows, skipped)
    ensures nInsert + nDelete == |netops| && |netops| + |skipped| + nShort == |rows|
    ensures nInsert == |Inserted(netops)| && nDelete == |Deleted(netops)|
  {
    netops, skipped, nInsert, nDelete, nShort := [], [], 0, 0, 0;
    for i := 0 to |rows|
      invariant netops == KeptOps(rows[..i]) && skipped == SkippedUpdates(rows[..i])
      invariant nInsert == |Inserted(netops)| && nDelete == |Deleted(netops)|
      invariant nInsert + nDelete == |netops| && |netops| + |skipped| + nShort == i
    {
      assert rows[..i + 1][..i] == rows[..i];
      match rows[i] {
        case Short =>
          nShort := nShort + 1;
        case Change(op, content) =>
          if op == "D" {
            InsertedSnoc(netops, Delete(content));
            netops, nDelete := netops + [Delete(content)], nDelete + 1;
          } else if op == "U" {
            skipped := skipped + [content];
          } else {
            InsertedSnoc(netops, Insert(content));
            netops, nInsert := netops + [Insert(content)], nInsert + 1;
          }
      }
    }
    assert rows[..|rows|] == rows;
    var at := KeptAreOps(rows);
    at := SkippedAreUpdates(rows);
  }

  /** The contents of a file's deletes, and of its inserts, in file order. */
  function Deleted(ops: seq<Op>): seq<Content> {
    if ops == [] then []
    else
      var rest, op := Deleted(ops[..|ops| - 1]), ops[|ops| - 1];
      if op.Delete? then rest + [op.content] else rest
  }

  function Inserted(ops: seq<Op>): seq<Content> {
    if ops == [] then []
    else
      var rest, op := Inserted(ops[..|ops| - 1]), ops[|ops| - 1];
      if op.Insert? then rest + [op.content] else rest
  }

  lemma InsertedSnoc(ops: seq<Op>, op: Op)
    ensures Inserted(ops + [op]) == if op.Insert? then Inserted(ops) + [op.content] else Inserted(ops)
    ensures Deleted(ops + [op]) == if op.Delete? then Deleted(ops) + [op.content] else Deleted(ops)
  {
    assert (ops + [op])[..|ops|] == ops;
  }

  // ----- statements ------------------------------------------------------------------------

  /** The rows that are neither the file's own nor among the deleted contents. */
  function Keep(t: Table, tag: string, gone: set<Content>): Table {
    if t == [] then []
    else
      var rest, r := Keep(t[..|t| - 1], tag, gone), t[|t| - 1];
      if r.tag != Some(tag) && r.content !in gone then rest + [r] else rest
  }

  /** `DELETE FROM target WHERE _cdc_file = tag`. */
  function Purge(t: Table, tag: string): Table {
    if t == [] then []
    else
      var rest, r := Purge(t[..|t| - 1], tag), t[|t| - 1];
      if r.tag == Some(tag) then rest else rest + [r]
  }

  /** `DELETE FROM target WHERE` every content column matches. */
  function DeleteContent(t: Table, c: Content): Table {
    if t == [] then []
    else
      var rest, r := DeleteContent(t[..|t| - 1], c), t[|t| - 1];
      if r.content == c then rest else rest + [r]
  }

  function RunOp(t: Table, tag: string, op: Op): Table {
    match op
    case Delete(c) => DeleteContent(t, c)
    case Insert(c) => t + [TRow(c, Some(tag))]
  }

  function RunOps(t: Table, tag: string, ops: seq<Op>): Table {
    if ops == [] then t else RunOp(RunOps(t, tag, ops[..|ops| - 1]), tag, ops[|ops| - 1])
  }

  function DeleteOps(contents: seq<Content>): seq<Op> {
    seq(|contents|, i requires 0 <= i < |contents| => Delete(contents[i]))
  }

  function InsertOps(contents: seq<Content>): seq<Op> {
    seq(|contents|, i requires 0 <= i < |contents| => Insert(contents[i]))
  }

  /** `op_units`: every delete of the file, then every insert. */
  function Units(ops: seq<Op>): seq<Op> { DeleteOps(Deleted(ops)) + InsertOps(Inserted(ops)) }

  function Tagged(contents: seq<Content>, tag: string): Table {
    seq(|contents|, i requires 0 <= i < |contents| => TRow(contents[i], Some(tag)))
  }

  /** What the file is meant to leave: the purge, the deletes, the inserts. */
  function Reloaded(base: Table, tag: string, ops: seq<Op>): Table {
    Keep(base, tag, SetOf(Deleted(ops))) + Tagged(Inserted(ops), tag)
  }

  function SetOf(s: seq<Content>): set<Content> { set i | 0 <= i < |s| :: s[i] }

  lemma {:induction false} PurgeConcat(a: Table, b: Table, tag: string)
    ensures Purge(a + b, tag) == Purge(a, tag) + Purge(b, tag)
  {
    if b == [] {
      assert a + b == a;
    } else {
      assert (a + b)[..|a + b| - 1] == a + b[..|b| - 1];
      PurgeConcat(a, b[..|b| - 1], tag);
    }
  }

  lemma {:induction false} PurgeOwn(t: Table, tag: string)
    requires forall i :: 0 <= i < |t| ==> t[i].tag == Some(tag)
    ensures Purge(t, tag) == []
  {
    if t != [] {
      PurgeOwn(t[..|t| - 1], tag);
    }
  }

  lemma {:induction false} PurgeKept(t: Table, tag: string, gone: set<Content>)
    ensures Purge(Keep(t, tag, gone), tag) == Keep(t, tag, gone)
  {
    if t != [] {
      var front, r := t[..|t| - 1], t[|t| - 1];
      PurgeKept(front, tag, gone);
      if r.tag != Some(tag) && r.content !in gone {
        PurgeConcat(Keep(front, tag, gone), [r], tag);
        assert [r][..0] == [];
      }
    }
  }

  lemma {:induction false} PurgeIsKeep(t: Table, tag: string)
    ensures Purge(t, tag) == Keep(t, tag, {})
  {
    if t != [] {
      PurgeIsKeep(t[..|t| - 1], tag);
    }
  }

  lemma {:induction false} DeleteConcat(a: Table, b: Table, c: Content)
    ensures DeleteContent(a + b, c) == DeleteContent(a, c) + DeleteContent(b, c)
  {
    if b == [] {
      assert a + b == a;
    } else {
      assert (a + b)[..|a + b| - 1] == a + b[..|b| - 1];
      DeleteConcat(a, b[..|b| - 1], c);
    }
  }

  lemma {:induction false} DeleteKept(t: Table, tag: string, gone: set<Content>, c: Content)
    ensures DeleteContent(Keep(t, tag, gone), c) == Keep(t, tag, gone + {c})
  {
    if t != [] {
      var front, r := t[..|t| - 1], t[|t| - 1];
      DeleteKept(front, tag, gone, c);
      if r.tag != Some(tag) && r.content !in gone {
        DeleteConcat(Keep(front, tag, gone), [r], c);
        assert [r][..0] == [];
      }
    }
  }

  // ----- what a partly applied file looks like ---------------------------------------------

  /** After the first `k` units, possibly of a repeated run: at least those deletes took effect and
      no other than the file's, and the file's own rows are exactly those first inserts. */
  ghost predicate PartlyApplied(t: Table, base: Table, tag: string, ops: seq<Op>, k: nat, gone: set<Content>) {
    && k <= |Units(ops)|
    && SetOf(Deleted(Units(ops)[..k])) <= gone <= SetOf(Deleted(ops))
    && t == Keep(base, tag, gone) + Tagged(Inserted(Units(ops)[..k]), tag)
  }

  lemma {:induction false} OnlyDeletes(s: seq<Content>)
    ensures Inserted(DeleteOps(s)) == [] && Deleted(DeleteOps(s)) == s
  {
    if s != [] {
      var front := s[..|s| - 1];
      OnlyDeletes(front);
      assert DeleteOps(s)[..|front|] == DeleteOps(front);
    }
  }

  lemma {:induction false} ThenOnlyInserts(d: seq<Content>, s: seq<Content>)
    ensures Inserted(DeleteOps(d) + InsertOps(s)) == s && Deleted(DeleteOps(d) + InsertOps(s)) == d
  {
    if s == [] {
      OnlyDeletes(d);
      assert DeleteOps(d) + InsertOps(s) == DeleteOps(d);
    } else {
      var front, last := s[..|s| - 1], s[|s| - 1];
      ThenOnlyInserts(d, front);
      InsertedSnoc(DeleteOps(d) + InsertOps(front), Insert(last));
      assert DeleteOps(d) + InsertOps(s) == (DeleteOps(d) + InsertOps(front)) + [Insert(last)];
      assert s == front + [last];
    }
  }

  /** The first units are deletes only. */
  lemma DeletesFirst(ops: seq<Op>, k: nat)
    requires k <= |Deleted(ops)|
    ensures Inserted(Units(ops)[..k]) == [] && Deleted(Units(ops)[..k]) == Deleted(ops)[..k]
  {
    assert Units(ops)[..k] == DeleteOps(Deleted(ops)[..k]);
    OnlyDeletes(Deleted(ops)[..k]);
  }

  /** From then on they are every delete and the first inserts. */
  lemma ThenInserts(ops: seq<Op>, k: nat)
    requires |Deleted(ops)| <= k <= |Units(ops)|
    ensures Inserted(Units(ops)[..k]) == Inserted(ops)[..k - |Deleted(ops)|] && Deleted(Units(ops)[..k]) == Deleted(ops)
  {
    var first := Inserted(ops)[..k - |Deleted(ops)|];
    assert Units(ops)[..k] == DeleteOps(Deleted(ops)) + InsertOps(first);
    ThenOnlyInserts(Deleted(ops), first);
  }

  /** One more unit: a delete, while no insert has run, or an insert. */
  lemma OneDelete(t: Table, base: Table, tag: string, ops: seq<Op>, k: nat, gone: set<Content>)
    requires PartlyApplied(t, base, tag, ops, k, gone) && k < |Deleted(ops)|
    ensures PartlyApplied(RunOp(t, tag, Units(ops)[k]), base, tag, ops, k + 1, gone + {Deleted(ops)[k]})
  {
    DeletesFirst(ops, k);
    DeletesFirst(ops, k + 1);
    var c := Deleted(ops)[k];
    DeleteKept(base, tag, gone, c);
    assert t == Keep(base, tag, gone);
    assert Keep(base, tag, gone + {c}) + Tagged([], tag) == Keep(base, tag, gone + {c});
    assert Deleted(ops)[..k + 1] == Deleted(ops)[..k] + [c];
    SetOfSnoc(Deleted(ops)[..k], c);
    SetOfHas(Deleted(ops), k);
  }

  lemma OneInsert(t: Table, base: Table, tag: string, ops: seq<Op>, k: nat, gone: set<Content>)
    requires PartlyApplied(t, base, tag, ops, k, gone) && |Deleted(ops)| <= k < |Units(ops)|
    ensures PartlyApplied(RunOp(t, tag, Units(ops)[k]), base, tag, ops, k + 1, gone)
  {
    var i := k - |Deleted(ops)|;
    ThenInserts(ops, k);
    ThenInserts(ops, k + 1);
    InsertStep(Keep(base, tag, gone), Inserted(ops), i, tag);
  }

  lemma InsertStep(kept: Table, s: seq<Content>, i: nat, tag: string)
    requires i < |s|
    ensures kept + Tagged(s[..i + 1], tag) == RunOp(kept + Tagged(s[..i], tag), tag, Insert(s[i]))
  {
    assert s[..i + 1] == s[..i] + [s[i]];
    TaggedSnoc(kept, s[..i], s[i], tag);
  }

  lemma TaggedSnoc(kept: Table, s: seq<Content>, c: Content, tag: string)
    ensures kept + Tagged(s + [c], tag) == (kept + Tagged(s, tag)) + [TRow(c, Some(tag))]
  {
  }

  lemma OneUnit(t: Table, base: Table, tag: string, ops: seq<Op>, k: nat, gone: set<Content>)
    returns (more: set<Content>)
    requires PartlyApplied(t, base, tag, ops, k, gone) && k < |Units(ops)|
    ensures PartlyApplied(RunOp(t, tag, Units(ops)[k]), base, tag, ops, k + 1, more)
    ensures more == gone + if Units(ops)[k].Delete? then {Units(ops)[k].content} else {}
  {
    if k < |Deleted(ops)| {
      OneDelete(t, base, tag, ops, k, gone);
      more := gone + {Deleted(ops)[k]};
    } else {
      OneInsert(t, base, tag, ops, k, gone);
      more := gone;
    }
  }

  lemma SetOfSnoc(s: seq<Content>, c: Content)
    ensures SetOf(s + [c]) == SetOf(s) + {c}
  {
    assert (s + [c])[|s|] == c;
    forall x ensures x in SetOf(s + [c]) <==> x in SetOf(s) || x == c {
      if x in SetOf(s) {
        var i :| 0 <= i < |s| && s[i] == x;
        assert (s + [c])[i] == x;
      }
    }
  }

  lemma SetOfHas(s: seq<Content>, i: nat)
    requires i < |s|
    ensures s[i] in SetOf(s)
  {
  }

  lemma ChunkSnoc(t: Table, tag: string, units: seq<Op>, k: nat, n: nat)
    requires k < n <= |units|
    ensures RunOps(t, tag, units[k..n]) == RunOp(RunOps(t, tag, units[k..n - 1]), tag, units[n - 1])
    ensures SetOf(Deleted(units[k..n])) ==
            SetOf(Deleted(units[k..n - 1])) + if units[n - 1].Delete? then {units[n - 1].content} else {}
  {
    var chunk := units[k..n];
    assert chunk[..|chunk| - 1] == units[k..n - 1];
    SetOfSnoc(Deleted(units[k..n - 1]), units[n - 1].content);
  }

  lemma {:induction false} MoreUnits(t: Table, base: Table, tag: string, ops: seq<Op>, k: nat, n: nat,
                                     gone: set<Content>)
    returns (more: set<Content>)
    requires PartlyApplied(t, base, tag, ops, k, gone) && k <= n <= |Units(ops)|
    ensures PartlyApplied(RunOps(t, tag, Units(ops)[k..n]), base, tag, ops, n, more)
    ensures more == gone + SetOf(Deleted(Units(ops)[k..n]))
  {
    if k == n {
      more := gone;
      assert Units(ops)[k..n] == [];
    } else {
      var before := MoreUnits(t, base, tag, ops, k, n - 1, gone);
      ChunkSnoc(t, tag, Units(ops), k, n);
      more := OneUnit(RunOps(t, tag, Units(ops)[k..n - 1]), base, tag, ops, n - 1, before);
    }
  }

  /** The purge takes a partly applied file back to its start. */
  lemma PurgeRestarts(t: Table, base: Table, tag: string, ops: seq<Op>, k: nat, gone: set<Content>)
    requires PartlyApplied(t, base, tag, ops, k, gone)
    ensures PartlyApplied(Purge(t, tag), base, tag, ops, 0, gone)
  {
    var own := Tagged(Inserted(Units(ops)[..k]), tag);
    PurgeConcat(Keep(base, tag, gone), own, tag);
    PurgeKept(base, tag, gone);
    PurgeOwn(own, tag);
    assert Units(ops)[..0] == [];
  }

  lemma PurgeStarts(base: Table, tag: string, ops: seq<Op>)
    ensures PartlyApplied(Purge(base, tag), base, tag, ops, 0, {})
  {
    PurgeIsKeep(base, tag);
    assert Units(ops)[..0] == [];
  }

  // ----- chunks ----------------------------------------------------------------------------

  const MAX_OPS := 2997

  /** Where the chunks of a file end, in its list of units. */
  predicate Cuts(cuts: seq<nat>, n: nat) {
    && cuts != [] && cuts[|cuts| - 1] == n
    && (forall i, j :: 0 <= i < j < |cuts| ==> cuts[i] < cuts[j])
  }

  function From(cuts: seq<nat>, i: nat): nat
    requires i <= |cuts|
  {
    if i == 0 then 0 else cuts[i - 1]
  }

  function Bytes(size: nat -> nat, lo: nat, hi: nat): nat
    requires lo <= hi
    decreases hi - lo
  {
    if lo == hi then 0 else Bytes(size, lo, hi - 1) + size(hi - 1)
  }

  predicate ChunkFits(size: nat -> nat, budget: nat, lo: nat, hi: nat)
    requires lo <= hi
  {
    hi - lo <= 1 || (hi - lo <= MAX_OPS && Bytes(size, lo, hi) <= budget)
  }

  /** The inner packing loop: the longest chunk from `lo` that fits. */
  method NextCut(size: nat -> nat, n: nat, budget: nat, lo: nat) returns (i: nat)
    requires lo < n
    ensures lo < i <= n && ChunkFits(size, budget, lo, i)
    ensures i == n || !ChunkFits(size, budget, lo, i + 1)
    ensures i - lo + 3 <= 3000 && (i == lo + 1 || Bytes(size, lo, i) <= budget)
    ensures i == n || i - lo + 3 == 3000 || Bytes(size, lo, i + 1) > budget
  {
    i := lo;
    var bytes := 0;
    while i < n && i - lo < MAX_OPS
      invariant lo <= i <= n && i - lo <= MAX_OPS && bytes == Bytes(size, lo, i) && ChunkFits(size, budget, lo, i)
    {
      if i > lo && bytes + size(i) > budget {
        break;
      }
      bytes := bytes + size(i);
      i := i + 1;
    }
  }

  predicate CutOk(cuts: seq<nat>, i: nat, n: nat, size: nat -> nat, budget: nat)
    requires i < |cuts|
  {
    && From(cuts, i) < cuts[i] && ChunkFits(size, budget, From(cuts, i), cuts[i])
    && (cuts[i] < n ==> !ChunkFits(size, budget, From(cuts, i), cuts[i] + 1))
  }

  lemma CutsSnoc(cuts: seq<nat>, i: nat, n: nat, size: nat -> nat, budget: nat)
    requires forall k :: 0 <= k < |cuts| ==> CutOk(cuts, k, n, size, budget)
    requires From(cuts, |cuts|) < i && ChunkFits(size, budget, From(cuts, |cuts|), i)
    requires i < n ==> !ChunkFits(size, budget, From(cuts, |cuts|), i + 1)
    ensures forall k :: 0 <= k < |cuts + [i]| ==> CutOk(cuts + [i], k, n, size, budget)
  {
    forall k | 0 <= k < |cuts + [i]| ensures CutOk(cuts + [i], k, n, size, budget) {
      assert From(cuts + [i], k) == From(cuts, k);
      assert k < |cuts| ==> CutOk(cuts, k, n, size, budget);
    }
  }

  /** The packing loop: every chunk is the longest that fits; a file without units still has one,
      empty, chunk. */
  method PackChunks(size: nat -> nat, n: nat, budget: nat) returns (cuts: seq<nat>)
    ensures Cuts(cuts, n) && (n == 0 ==> cuts == [0])
    ensures n > 0 ==> forall i :: 0 <= i < |cuts| ==> CutOk(cuts, i, n, size, budget)
  {
    cuts := [];
    var i := 0;
    while i < n
      invariant i <= n && i == From(cuts, |cuts|)
      invariant forall k :: 0 <= k < |cuts| ==> cuts[k] <= i && CutOk(cuts, k, n, size, budget)
      invariant forall k, m :: 0 <= k < m < |cuts| ==> cuts[k] < cuts[m]
    {
      var lo := i;
      i := NextCut(size, n, budget, lo);
      CutsSnoc(cuts, i, n, size, budget);
      cuts := cuts + [i];
    }
    if cuts == [] {
      cuts := [0];
    }
  }

  // ----- any number of runs ----------------------------------------------------------------

  /** The file's checkpoint: how many of its chunks the row says are committed. */
  datatype Run = Down | At(chunk: nat, expected: Option<nat>)

  datatype State = State(table: Table, row: Option<nat>, blocked: bool, runs: seq<Run>)

  /** A file to apply. */
  datatype Job = Job(base: Table, tag: string, ops: seq<Op>, cuts: seq<nat>)

  ghost predicate JobOk(j: Job) { Cuts(j.cuts, |Units(j.ops)|) }

  datatype Step = Start(r: nat) | TryChunk(r: nat, acked: bool) | SetBlocked(b: bool) | Crash(r: nat)

  predicate Enabled(s: State, j: Job, step: Step) {
    match step
    case Start(r) => r < |s.runs| && s.runs[r].Down?
    case TryChunk(r, _) => r < |s.runs| && s.runs[r].At? && s.runs[r].chunk < |j.cuts|
    case SetBlocked(_) => true
    case Crash(r) => r < |s.runs|
  }

  function ExecChunk(t: Table, j: Job, i: nat): Table
    requires JobOk(j) && i < |j.cuts|
  {
    var chunk := Units(j.ops)[From(j.cuts, i)..j.cuts[i]];
    RunOps(if i == 0 then Purge(t, j.tag) else t, j.tag, chunk)
  }

  /** A run starts at the first chunk from whatever checkpoint it reads, fences each chunk, and on
      a lost acknowledgement tries the chunk again. */
  function Do(s: State, j: Job, step: Step): State
    requires JobOk(j) && Enabled(s, j, step)
  {
    match step
    case Start(r) => s.(runs := s.runs[r := At(0, s.row)])
    case TryChunk(r, acked) =>
      var run := s.runs[r];
      var next := At(run.chunk + 1, Some(run.chunk + 1));
      if s.blocked then s.(runs := s.runs[r := Down])
      else if s.row == run.expected then
        s.(table := ExecChunk(s.table, j, run.chunk), row := Some(run.chunk + 1),
           runs := if acked then s.runs[r := next] else s.runs)
      else if s.row == Some(run.chunk + 1) then s.(runs := s.runs[r := next])
      else s.(runs := s.runs[r := Down])
    case SetBlocked(b) => s.(blocked := b)
    case Crash(r) => s.(runs := s.runs[r := Down])
  }

  predicate Legal(s: State, j: Job, steps: seq<Step>)
    requires JobOk(j)
    decreases |steps|
  {
    steps == [] || (Enabled(s, j, steps[0]) && Legal(Do(s, j, steps[0]), j, steps[1..]))
  }

  function Exec(s: State, j: Job, steps: seq<Step>): State
    requires JobOk(j) && Legal(s, j, steps)
    decreases |steps|
  {
    if steps == [] then s else Exec(Do(s, j, steps[0]), j, steps[1..])
  }

  ghost predicate Init(s: State, j: Job) {
    s.table == j.base && s.row == None && forall r :: 0 <= r < |s.runs| ==> s.runs[r].Down?
  }

  ghost predicate Reaches(t: Table, j: Job, k: nat) {
    exists gone :: PartlyApplied(t, j.base, j.tag, j.ops, k, gone)
  }

  ghost predicate TableOk(s: State, j: Job) requires JobOk(j) {
    match s.row
    case None => s.table == j.base
    case Some(c) =>
      0 < c <= |j.cuts| && Reaches(s.table, j, j.cuts[c - 1])
  }

  ghost predicate RunOk(run: Run) { run.At? && run.chunk > 0 ==> run.expected == Some(run.chunk) }

  ghost predicate Inv(s: State, j: Job) requires JobOk(j) {
    TableOk(s, j) && forall r :: 0 <= r < |s.runs| ==> RunOk(s.runs[r])
  }

  lemma CutsBound(cuts: seq<nat>, n: nat, i: nat)
    requires Cuts(cuts, n) && i < |cuts|
    ensures From(cuts, i) <= cuts[i] <= n
  {
  }

  lemma ChunkKeeps(s: State, j: Job, i: nat)
    requires JobOk(j) && TableOk(s, j) && i < |j.cuts| && (i > 0 ==> s.row == Some(i))
    ensures Reaches(ExecChunk(s.table, j, i), j, j.cuts[i])
  {
    CutsBound(j.cuts, |Units(j.ops)|, i);
    var start, gone := s.table, {};
    if i == 0 {
      start := Purge(s.table, j.tag);
      if s.row == None {
        PurgeStarts(j.base, j.tag, j.ops);
      } else {
        gone :| PartlyApplied(s.table, j.base, j.tag, j.ops, j.cuts[s.row.value - 1], gone);
        PurgeRestarts(s.table, j.base, j.tag, j.ops, j.cuts[s.row.value - 1], gone);
      }
    } else {
      gone :| PartlyApplied(s.table, j.base, j.tag, j.ops, j.cuts[i - 1], gone);
    }
    assert PartlyApplied(start, j.base, j.tag, j.ops, From(j.cuts, i), gone);
    var more := MoreUnits(start, j.base, j.tag, j.ops, From(j.cuts, i), j.cuts[i], gone);
    assert PartlyApplied(ExecChunk(s.table, j, i), j.base, j.tag, j.ops, j.cuts[i], more);
  }

  lemma TryKeeps(s: State, j: Job, r: nat, acked: bool)
    requires JobOk(j) && Inv(s, j) && Enabled(s, j, TryChunk(r, acked)) && !s.blocked && s.row == s.runs[r].expected
    ensures Inv(Do(s, j, TryChunk(r, acked)), j)
  {
    var run := s.runs[r];
    assert RunOk(run);
    ChunkKeeps(s, j, run.chunk);
    assert TableOk(Do(s, j, TryChunk(r, acked)), j);
  }

  lemma StepKeeps(s: State, j: Job, step: Step)
    requires JobOk(j) && Inv(s, j) && Enabled(s, j, step)
    ensures Inv(Do(s, j, step), j)
  {
    if step.TryChunk? && !s.blocked && s.row == s.runs[step.r].expected {
      TryKeeps(s, j, step.r, step.acked);
    } else {
      OtherKeeps(s, Do(s, j, step), j);
    }
  }

  lemma OtherKeeps(s: State, s': State, j: Job)
    requires JobOk(j) && Inv(s, j) && s'.table == s.table && s'.row == s.row
    requires forall r :: 0 <= r < |s'.runs| ==> RunOk(s'.runs[r])
    ensures Inv(s', j)
  {
  }

  lemma {:induction false} Reached(s: State, j: Job, steps: seq<Step>)
    requires JobOk(j) && Inv(s, j) && Legal(s, j, steps)
    ensures Inv(Exec(s, j, steps), j)
    decreases |steps|
  {
    if steps != [] {
      StepKeeps(s, j, steps[0]);
      Reached(Do(s, j, steps[0]), j, steps[1..]);
    }
  }

  /** Any number of runs, each starting the whole file again, with crashes, lost acknowledgements
      and blocks anywhere: once the checkpoint says every chunk is committed, the table is the one
      an uninterrupted purge, deletes, inserts leaves; and at any time before, the rows of other
      files that match no delete are all there, in place. */
  lemma KeylessReloadConverges(s: State, j: Job, steps: seq<Step>)
    requires JobOk(j) && Init(s, j) && Legal(s, j, steps)
    ensures
      var e := Exec(s, j, steps);
      && (e.row == Some(|j.cuts|) ==> e.table == Reloaded(j.base, j.tag, j.ops))
      && Keep(e.table, j.tag, SetOf(Deleted(j.ops))) == Keep(j.base, j.tag, SetOf(Deleted(j.ops)))
  {
    Reached(s, j, steps);
    var e := Exec(s, j, steps);
    if e.row.Some? {
      var k := j.cuts[e.row.value - 1];
      var gone :| PartlyApplied(e.table, j.base, j.tag, j.ops, k, gone);
      OthersUntouched(e.table, j.base, j.tag, j.ops, k, gone);
      if e.row == Some(|j.cuts|) {
        Completed(e, j);
      }
    }
  }

  lemma Completed(s: State, j: Job)
    requires JobOk(j) && TableOk(s, j) && s.row == Some(|j.cuts|)
    ensures s.table == Reloaded(j.base, j.tag, j.ops)
  {
    var gone :| PartlyApplied(s.table, j.base, j.tag, j.ops, j.cuts[|j.cuts| - 1], gone);
    LastChunk(s.table, j.base, j.tag, j.ops, gone);
  }

  lemma LastChunk(t: Table, base: Table, tag: string, ops: seq<Op>, gone: set<Content>)
    requires PartlyApplied(t, base, tag, ops, |Units(ops)|, gone)
    ensures t == Reloaded(base, tag, ops)
  {
    ThenInserts(ops, |Units(ops)|);
    assert |Units(ops)| - |Deleted(ops)| == |Inserted(ops)|;
    assert Inserted(ops)[..|Inserted(ops)|] == Inserted(ops);
    assert gone == SetOf(Deleted(ops));
  }

  lemma {:induction false} KeepConcat(a: Table, b: Table, tag: string, gone: set<Content>)
    ensures Keep(a + b, tag, gone) == Keep(a, tag, gone) + Keep(b, tag, gone)
  {
    if b == [] {
      assert a + b == a;
    } else {
      assert (a + b)[..|a + b| - 1] == a + b[..|b| - 1];
      KeepConcat(a, b[..|b| - 1], tag, gone);
    }
  }

  lemma KeepOne(r: TRow, tag: string, gone: set<Content>)
    ensures Keep([r], tag, gone) == if r.tag != Some(tag) && r.content !in gone then [r] else []
  {
    assert [r][..0] == [];
  }

  lemma {:induction false} KeepKept(t: Table, tag: string, gone: set<Content>, more: set<Content>)
    requires gone <= more
    ensures Keep(Keep(t, tag, gone), tag, more) == Keep(t, tag, more)
  {
    if t != [] {
      var front, r := t[..|t| - 1], t[|t| - 1];
      KeepKept(front, tag, gone, more);
      KeepOne(r, tag, more);
      if r.tag != Some(tag) && r.content !in gone {
        KeepConcat(Keep(front, tag, gone), [r], tag, more);
      }
    }
  }

  lemma {:induction false} KeepOwn(t: Table, tag: string, gone: set<Content>)
    requires forall i :: 0 <= i < |t| ==> t[i].tag == Some(tag)
    ensures Keep(t, tag, gone) == []
  {
    if t != [] {
      KeepOwn(t[..|t| - 1], tag, gone);
    }
  }

  lemma OthersUntouched(t: Table, base: Table, tag: string, ops: seq<Op>, k: nat, gone: set<Content>)
    requires PartlyApplied(t, base, tag, ops, k, gone)
    ensures Keep(t, tag, SetOf(Deleted(ops))) == Keep(base, tag, SetOf(Deleted(ops)))
  {
    var own := Tagged(Inserted(Units(ops)[..k]), tag);
    KeepConcat(Keep(base, tag, gone), own, tag, SetOf(Deleted(ops)));
    KeepKept(base, tag, gone, SetOf(Deleted(ops)));
    KeepOwn(own, tag, SetOf(Deleted(ops)));
  }

  // ----- what a run can rely on ------------------------------------------------------------

  /** While the table is blocked nothing moves, whatever the runs do. */
  lemma {:induction false} BlockedIsFrozen(s: State, j: Job, steps: seq<Step>)
    requires JobOk(j) && Legal(s, j, steps) && s.blocked
    requires forall i :: 0 <= i < |steps| ==> steps[i] != SetBlocked(false)
    ensures Exec(s, j, steps).table == s.table && Exec(s, j, steps).row == s.row
    decreases |steps|
  {
    if steps != [] {
      assert forall i :: 0 <= i < |steps[1..]| ==> steps[1..][i] == steps[i + 1];
      BlockedIsFrozen(Do(s, j, steps[0]), j, steps[1..]);
    }
  }

  /** The table changes only with the checkpoint, which goes one chunk on or back to the first, by a run
      that had read it as it was; a run that finds it elsewhere stops, or goes on if its chunk is the
      one committed. */
  lemma CheckpointMovesByChunks(s: State, j: Job, r: nat, acked: bool)
    requires JobOk(j) && Inv(s, j) && Enabled(s, j, TryChunk(r, acked))
    ensures
      var e, run := Do(s, j, TryChunk(r, acked)), s.runs[r];
      if s.blocked || (s.row != run.expected && s.row != Some(run.chunk + 1)) then
        e.table == s.table && e.row == s.row && e.runs[r] == Down
      else
        && e.row == Some(run.chunk + 1) && (run.chunk > 0 && s.row == run.expected ==> s.row == Some(run.chunk))
        && (s.row != run.expected ==> e.table == s.table && e.runs[r] == At(run.chunk + 1, e.row))
  {
    assert RunOk(s.runs[r]);
  }

  /** Running the first chunk again changes nothing. */
  lemma FirstChunkTwice(s: State, j: Job)
    requires JobOk(j) && Inv(s, j) && s.row == Some(1)
    ensures ExecChunk(s.table, j, 0) == s.table
  {
    var n := j.cuts[0];
    var gone :| PartlyApplied(s.table, j.base, j.tag, j.ops, n, gone);
    PurgeRestarts(s.table, j.base, j.tag, j.ops, n, gone);
    CutsBound(j.cuts, |Units(j.ops)|, 0);
    var more := MoreUnits(Purge(s.table, j.tag), j.base, j.tag, j.ops, 0, n, gone);
    assert Units(j.ops)[0..n] == Units(j.ops)[..n];
    assert more == gone;
  }

  /** A chunk whose acknowledgement is lost is tried again, and that leaves everything as if it had come
      at once, be the chunk recognised as committed or, after a restart, run a second time. */
  lemma LostAckIsMadeGood(s: State, j: Job, r: nat)
    requires JobOk(j) && Inv(s, j) && Enabled(s, j, TryChunk(r, false))
    requires !s.blocked && s.row == s.runs[r].expected
    ensures Enabled(Do(s, j, TryChunk(r, false)), j, TryChunk(r, true))
    ensures Do(Do(s, j, TryChunk(r, false)), j, TryChunk(r, true)) == Do(s, j, TryChunk(r, true))
  {
    assert RunOk(s.runs[r]);
    if s.row == Some(s.runs[r].chunk + 1) {
      FirstChunkTwice(s, j);
    }
  }

  lemma {:induction false} FinishFrom(s: State, j: Job, r: nat, c: nat) returns (steps: seq<Step>)
    requires JobOk(j) && Inv(s, j) && !s.blocked && r < |s.runs| && c <= |j.cuts|
    requires s.runs[r] == At(c, s.row) && (c > 0 ==> s.row == Some(c))
    ensures Legal(s, j, steps) && Exec(s, j, steps).row == Some(|j.cuts|)
    decreases |j.cuts| - c
  {
    if c == |j.cuts| {
      steps := [];
    } else {
      var step := TryChunk(r, true);
      StepKeeps(s, j, step);
      var rest := FinishFrom(Do(s, j, step), j, r, c + 1);
      steps := [step] + rest;
    }
  }

  lemma OneStepFirst(s: State, j: Job, step: Step, rest: seq<Step>)
    requires JobOk(j) && Enabled(s, j, step) && Legal(Do(s, j, step), j, rest)
    ensures Legal(s, j, [step] + rest) && Exec(s, j, [step] + rest) == Exec(Do(s, j, step), j, rest)
  {
  }

  /** From every state the runs can get into, one more run of any of them, once the table is unblocked,
      completes the file. */
  lemma KeylessCanAlwaysFinish(s: State, j: Job, steps: seq<Step>, r: nat) returns (more: seq<Step>)
    requires JobOk(j) && Init(s, j) && Legal(s, j, steps) && r < |Exec(s, j, steps).runs|
    ensures Legal(Exec(s, j, steps), j, more)
    ensures var e := Exec(Exec(s, j, steps), j, more);
            e.row == Some(|j.cuts|) && e.table == Reloaded(j.base, j.tag, j.ops)
  {
    Reached(s, j, steps);
    var a := Exec(s, j, steps);
    var b := Do(a, j, SetBlocked(false));
    var c := Do(b, j, Crash(r));
    var d := Do(c, j, Start(r));
    StepKeeps(a, j, SetBlocked(false));
    StepKeeps(b, j, Crash(r));
    StepKeeps(c, j, Start(r));
    var rest := FinishFrom(d, j, r, 0);
    OneStepFirst(c, j, Start(r), rest);
    OneStepFirst(b, j, Crash(r), [Start(r)] + rest);
    OneStepFirst(a, j, SetBlocked(false), [Crash(r)] + ([Start(r)] + rest));
    more := [SetBlocked(false)] + ([Crash(r)] + ([Start(r)] + rest));
    Reached(a, j, more);
    Completed(Exec(a, j, more), j);
  }

  // ----- deletes before inserts ------------------------------------------------------------

  /** No delete of the file comes after an insert of the same content. */
  predicate NoLateDelete(ops: seq<Op>) {
    forall i, j :: 0 <= i < j < |ops| && ops[i].Insert? && ops[j].Delete? ==> ops[i].content != ops[j].content
  }

  lemma {:induction false} InsertedHas(ops: seq<Op>, c: Content)
    ensures c in Inserted(ops) <==> exists i :: 0 <= i < |ops| && ops[i] == Insert(c)
  {
    if ops != [] {
      var front, last := ops[..|ops| - 1], ops[|ops| - 1];
      InsertedHas(front, c);
      if i :| 0 <= i < |front| && front[i] == Insert(c) {
        assert ops[i] == Insert(c);
      }
      if i :| 0 <= i < |ops| && ops[i] == Insert(c) {
        assert i < |front| ==> front[i] == Insert(c);
      }
      assert last == Insert(c) ==> ops[|ops| - 1] == Insert(c);
    }
  }

  lemma {:induction false} NothingToDelete(contents: seq<Content>, tag: string, c: Content)
    requires c !in contents
    ensures DeleteContent(Tagged(contents, tag), c) == Tagged(contents, tag)
  {
    if contents != [] {
      assert Tagged(contents, tag)[..|contents| - 1] == Tagged(contents[..|contents| - 1], tag);
      NothingToDelete(contents[..|contents| - 1], tag, c);
      assert contents[|contents| - 1] != c;
    }
  }

  /** With no late delete, running the file in its own order gives what the reload gives. */
  lemma {:induction false} OrderDoesNotMatter(base: Table, tag: string, ops: seq<Op>)
    requires NoLateDelete(ops)
    ensures RunOps(Purge(base, tag), tag, ops) == Reloaded(base, tag, ops)
  {
    if ops == [] {
      PurgeIsKeep(base, tag);
      assert SetOf(Deleted(ops)) == {};
    } else {
      var front, op := ops[..|ops| - 1], ops[|ops| - 1];
      assert forall i :: 0 <= i < |front| ==> front[i] == ops[i];
      OrderDoesNotMatter(base, tag, front);
      match op
      case Delete(c) =>
        assert c !in Inserted(front) by {
          InsertedHas(front, c);
        }
        LastDelete(base, tag, front, c);
        assert ops == front + [op];
      case Insert(c) =>
        InsertedSnoc(front, op);
        assert ops == front + [op];
        TaggedSnoc(Keep(base, tag, SetOf(Deleted(front))), Inserted(front), c, tag);
    }
  }

  lemma LastDelete(base: Table, tag: string, front: seq<Op>, c: Content)
    requires c !in Inserted(front)
    ensures DeleteContent(Reloaded(base, tag, front), c) == Reloaded(base, tag, front + [Delete(c)])
  {
    var kept := Keep(base, tag, SetOf(Deleted(front)));
    InsertedSnoc(front, Delete(c));
    SetOfSnoc(Deleted(front), c);
    DeleteConcat(kept, Tagged(Inserted(front), tag), c);
    DeleteKept(base, tag, SetOf(Deleted(front)), c);
    NothingToDelete(Inserted(front), tag, c);
  }

  /** How many of the file's own rows have this content. */
  function Own(t: Table, tag: string, c: Content): nat {
    if t == [] then 0
    else Own(t[..|t| - 1], tag, c) + if t[|t| - 1] == TRow(c, Some(tag)) then 1 else 0
  }

  lemma {:induction false} OwnConcat(a: Table, b: Table, tag: string, c: Content)
    ensures Own(a + b, tag, c) == Own(a, tag, c) + Own(b, tag, c)
  {
    if b == [] {
      assert a + b == a;
    } else {
      assert (a + b)[..|a + b| - 1] == a + b[..|b| - 1];
      OwnConcat(a, b[..|b| - 1], tag, c);
    }
  }

  lemma {:induction false} OwnAfterDelete(t: Table, tag: string, d: Content, c: Content)
    ensures Own(DeleteContent(t, d), tag, c) == if d == c then 0 else Own(t, tag, c)
  {
    if t != [] {
      var front, r := t[..|t| - 1], t[|t| - 1];
      OwnAfterDelete(front, tag, d, c);
      if r.content != d {
        OwnConcat(DeleteContent(front, d), [r], tag, c);
        assert [r][..0] == [];
      }
    }
  }

  function Inserts(ops: seq<Op>, c: Content): nat {
    if ops == [] then 0 else Inserts(ops[..|ops| - 1], c) + if ops[|ops| - 1] == Insert(c) then 1 else 0
  }

  /** Some delete of this content comes after an insert of it. */
  predicate Late(ops: seq<Op>, c: Content) {
    ops != [] &&
    (Late(ops[..|ops| - 1], c) || (ops[|ops| - 1] == Delete(c) && Inserts(ops[..|ops| - 1], c) > 0))
  }

  lemma {:induction false} IsLate(ops: seq<Op>, c: Content, i: nat, j: nat)
    requires i < j < |ops| && ops[i] == Insert(c) && ops[j] == Delete(c)
    ensures Late(ops, c)
  {
    var front := ops[..|ops| - 1];
    if j < |front| {
      IsLate(front, c, i, j);
    } else {
      InsertsPositive(front, c, i);
    }
  }

  /** In file order a content's inserts are lost from its last delete back. */
  lemma {:induction false} OwnInOrder(t: Table, tag: string, ops: seq<Op>, c: Content)
    requires Own(t, tag, c) == 0
    ensures Own(RunOps(t, tag, ops), tag, c) <= Inserts(ops, c)
    ensures Late(ops, c) ==> Own(RunOps(t, tag, ops), tag, c) < Inserts(ops, c)
  {
    if ops != [] {
      var front, op := ops[..|ops| - 1], ops[|ops| - 1];
      OwnInOrder(t, tag, front, c);
      match op
      case Delete(d) =>
        OwnAfterDelete(RunOps(t, tag, front), tag, d, c);
      case Insert(d) =>
        OwnConcat(RunOps(t, tag, front), [TRow(d, Some(tag))], tag, c);
        assert [TRow(d, Some(tag))][..0] == [];
    }
  }

  lemma {:induction false} InsertsPositive(ops: seq<Op>, c: Content, i: nat)
    requires i < |ops| && ops[i] == Insert(c)
    ensures Inserts(ops, c) > 0
  {
    if i < |ops| - 1 {
      InsertsPositive(ops[..|ops| - 1], c, i);
    }
  }

  lemma OwnOfOneMore(s: seq<Content>, d: Content, tag: string, c: Content)
    ensures Own(Tagged(s + [d], tag), tag, c) == Own(Tagged(s, tag), tag, c) + if d == c then 1 else 0
  {
    assert Tagged(s + [d], tag)[..|s|] == Tagged(s, tag);
  }

  lemma {:induction false} OwnOfTagged(ops: seq<Op>, tag: string, c: Content)
    ensures Own(Tagged(Inserted(ops), tag), tag, c) == Inserts(ops, c)
  {
    if ops != [] {
      var front, op := ops[..|ops| - 1], ops[|ops| - 1];
      OwnOfTagged(front, tag, c);
      assert ops == front + [op];
      InsertedSnoc(front, op);
      if op.Insert? {
        OwnOfOneMore(Inserted(front), op.content, tag, c);
      }
    }
  }

  lemma {:induction false} OwnKept(t: Table, tag: string, gone: set<Content>, c: Content)
    ensures Own(Keep(t, tag, gone), tag, c) == 0
  {
    if t != [] {
      var front, r := t[..|t| - 1], t[|t| - 1];
      OwnKept(front, tag, gone, c);
      if r.tag != Some(tag) && r.content !in gone {
        OwnConcat(Keep(front, tag, gone), [r], tag, c);
        assert [r][..0] == [];
      }
    }
  }

  /** The keyless path runs a file's deletes before its inserts, which is the file's own order in
      effect, as multisets of rows, exactly when no delete comes after an insert of the same
      content; otherwise a row the file inserts and then deletes stays. */
  lemma ReloadIsFileOrderExactlyWithoutLateDeletes(base: Table, tag: string, ops: seq<Op>)
    ensures multiset(RunOps(Purge(base, tag), tag, ops)) == multiset(Reloaded(base, tag, ops)) <==> NoLateDelete(ops)
  {
    if NoLateDelete(ops) {
      OrderDoesNotMatter(base, tag, ops);
    } else {
      var i, j :| 0 <= i < j < |ops| && ops[i].Insert? && ops[j].Delete? && ops[i].content == ops[j].content;
      var c := ops[i].content;
      IsLate(ops, c, i, j);
      PurgeIsKeep(base, tag);
      OwnKept(base, tag, {}, c);
      OwnInOrder(Purge(base, tag), tag, ops, c);
      OwnKept(base, tag, SetOf(Deleted(ops)), c);
      OwnOfTagged(ops, tag, c);
      OwnConcat(Keep(base, tag, SetOf(Deleted(ops))), Tagged(Inserted(ops), tag), tag, c);
      OwnIsMultiplicity(RunOps(Purge(base, tag), tag, ops), tag, c);
      OwnIsMultiplicity(Reloaded(base, tag, ops), tag, c);
    }
  }

  lemma {:induction false} OwnIsMultiplicity(t: Table, tag: string, c: Content)
    ensures Own(t, tag, c) == multiset(t)[TRow(c, Some(tag))]
  {
    if t != [] {
      OwnIsMultiplicity(t[..|t| - 1], tag, c);
      assert t == t[..|t| - 1] + [t[|t| - 1]];
    }
  }
}
