/**
 The size of a chunk's SQL (`build_chunk_sql`, `sql_literal`, `_netop_cheap_bytes` and the measured
 backstop of scripts/glue_cdc_composite.py): the UTF-8 bytes that are measured, and the character
 count the packer estimates them by.
 */
module ChunkSize {
  import opened Util
  import opened ChangeRows
  import opened NetOps

  // ----- sizes of a chunk ------------------------------------------------------------------

  /** Per operation: the bytes of its DELETE, or of its group of values, and the cheap estimate;
      `frame` is the text of the upsert around the groups. */
  datatype Sizes = Sizes(delete: Key -> nat, group: (Key, Image) -> nat, frame: nat, cheap: NetOp -> nat)

  /** The groups of the upsert, each with a separator of two characters. */
  function GroupsBytes(z: Sizes, rows: seq<(Key, Image)>): nat {
    if rows == [] then 0
    else GroupsBytes(z, rows[..|rows| - 1]) + z.group(rows[|rows| - 1].0, rows[|rows| - 1].1) + 2
  }

  function StmtBytes(z: Sizes, s: Stmt): nat {
    match s
    case DeleteRow(k) => z.delete(k)
    case InsertOnConflict(rows) => if rows == [] then z.frame else z.frame + GroupsBytes(z, rows) - 2
  }

  function StmtsBytes(z: Sizes, stmts: seq<Stmt>): nat {
    if stmts == [] then 0 else StmtsBytes(z, stmts[..|stmts| - 1]) + StmtBytes(z, stmts[|stmts| - 1])
  }

  /** The bytes of the statements of a chunk. */
  function Measured(z: Sizes, ops: seq<NetOp>): nat { StmtsBytes(z, BuildChunkSql(ops)) }

  function CheapBytes(z: Sizes, ops: seq<NetOp>): nat {
    if ops == [] then 0 else CheapBytes(z, ops[..|ops| - 1]) + z.cheap(ops[|ops| - 1])
  }

  /** What an operation adds to a chunk: its DELETE, or its group with a separator. */
  function OpBytes(z: Sizes, op: NetOp): nat {
    match op
    case Delete(k) => z.delete(k)
    case Upsert(k, img) => z.group(k, img) + 2
  }

  function OpsBytes(z: Sizes, ops: seq<NetOp>): nat {
    if ops == [] then 0 else OpsBytes(z, ops[..|ops| - 1]) + OpBytes(z, ops[|ops| - 1])
  }

  lemma {:induction false} DeletesAndGroups(z: Sizes, ops: seq<NetOp>)
    ensures StmtsBytes(z, Deletes(ops)) + GroupsBytes(z, Values(ops)) == OpsBytes(z, ops)
    ensures Values(ops) != [] ==> GroupsBytes(z, Values(ops)) >= 2
  {
    if ops != [] {
      var n := |ops| - 1;
      DeletesAndGroups(z, ops[..n]);
      if ops[n].Delete? {
        assert (Deletes(ops[..n]) + [DeleteRow(ops[n].key)])[..|Deletes(ops[..n])|] == Deletes(ops[..n]);
      } else {
        assert (Values(ops[..n]) + [(ops[n].key, ops[n].image)])[..|Values(ops[..n])|] == Values(ops[..n]);
      }
    }
  }

  /** The statements of a chunk are as long as its operations, and the upsert's frame once. */
  lemma MeasuredIs(z: Sizes, ops: seq<NetOp>)
    ensures Measured(z, ops) == OpsBytes(z, ops) + if Values(ops) == [] then 0 else z.frame - 2
  {
    DeletesAndGroups(z, ops);
    if Values(ops) == [] {
      assert Deletes(ops) + [] == Deletes(ops);
    } else {
      var upsert := InsertOnConflict(Values(ops));
      assert (Deletes(ops) + [upsert])[..|Deletes(ops)|] == Deletes(ops);
    }
  }

  lemma {:induction false} OpsBytesGrow(z: Sizes, ops: seq<NetOp>, n: nat)
    requires n <= |ops|
    ensures OpsBytes(z, ops[..n]) <= OpsBytes(z, ops)
    ensures Values(ops[..n]) == [] && Values(ops) != [] ==> OpsBytes(z, ops) >= OpsBytes(z, ops[..n]) + 2
    ensures Values(ops[..n]) != [] ==> Values(ops) != []
  {
    if n < |ops| {
      assert ops[..|ops| - 1][..n] == ops[..n];
      OpsBytesGrow(z, ops[..|ops| - 1], n);
    } else {
      assert ops[..n] == ops;
    }
  }

  /** Dropping the tail of a chunk never makes its SQL longer. */
  lemma MeasuredGrows(z: Sizes, ops: seq<NetOp>, n: nat)
    requires n <= |ops|
    ensures Measured(z, ops[..n]) <= Measured(z, ops)
  {
    MeasuredIs(z, ops[..n]);
    MeasuredIs(z, ops);
    OpsBytesGrow(z, ops, n);
  }

  lemma {:induction false} CheapBytesGrow(z: Sizes, ops: seq<NetOp>, n: nat)
    requires n <= |ops|
    ensures CheapBytes(z, ops[..n]) <= CheapBytes(z, ops)
  {
    if n < |ops| {
      assert ops[..|ops| - 1][..n] == ops[..n];
      CheapBytesGrow(z, ops[..|ops| - 1], n);
    } else {
      assert ops[..n] == ops;
    }
  }

  /** Operations whose estimate covers their own bytes: the chunk is within its estimate, the
      upsert's frame aside. */
  lemma {:induction false} HonestOps(z: Sizes, ops: seq<NetOp>)
    requires forall i :: 0 <= i < |ops| ==> OpBytes(z, ops[i]) <= z.cheap(ops[i])
    ensures OpsBytes(z, ops) <= CheapBytes(z, ops)
  {
    if ops != [] {
      HonestOps(z, ops[..|ops| - 1]);
    }
  }

  // ----- characters and bytes --------------------------------------------------------------

  function Utf8(c: char): nat {
    if c < '\U{80}' then 1 else if c < '\U{800}' then 2 else if c < '\U{10000}' then 3 else 4
  }

  function Bytes(s: string): nat {
    if s == [] then 0 else Bytes(s[..|s| - 1]) + Utf8(s[|s| - 1])
  }

  lemma {:induction false} BytesConcat(a: string, b: string)
    ensures Bytes(a + b) == Bytes(a) + Bytes(b)
  {
    if b == [] {
      assert a + b == a;
    } else {
      assert (a + b)[..|a + b| - 1] == a + b[..|b| - 1];
      BytesConcat(a, b[..|b| - 1]);
    }
  }

  predicate Ascii(s: string) { forall i :: 0 <= i < |s| ==> s[i] < '\U{80}' }

  lemma {:induction false} AsciiBytes(s: string)
    requires Ascii(s)
    ensures Bytes(s) == |s|
  {
    if s != [] {
      AsciiBytes(s[..|s| - 1]);
    }
  }

  /** `s.replace("'", "''")`. */
  function Doubled(s: string): string {
    if s == [] then [] else Doubled(s[..|s| - 1]) + if s[|s| - 1] == '\'' then "''" else [s[|s| - 1]]
  }

  function Literal(v: Option<string>, cast: string): string {
    if v == None then "NULL" else "'" + Doubled(v.value) + "'" + cast
  }

  /** The target and its columns; `cast` is the type suffix of a column's literals. */
  datatype Layout = Layout(target: string, keys: seq<string>, cols: seq<string>, cast: string -> string)

  function KeyAt(key: Key, i: nat): string { if i < |key| then key[i] else "" }

  function ValueOf(image: Image, c: string): Option<string> { if c in image then image[c] else None }

  /** `"k1" = v1 AND "k2" = v2 ...` for the first `n` key columns. */
  function Where(l: Layout, key: Key, n: nat): string
    requires n <= |l.keys|
  {
    if n == 0 then ""
    else
      Where(l, key, n - 1) + (if n == 1 then "" else " AND ") + "\"" + l.keys[n - 1] + "\" = "
      + Literal(Some(KeyAt(key, n - 1)), l.cast(l.keys[n - 1]))
  }

  /** The first `n` literals of a group: the key columns, then the others. */
  function Items(l: Layout, key: Key, image: Image, n: nat): string
    requires n <= |l.keys| + |l.cols|
  {
    if n == 0 then ""
    else
      var i := n - 1;
      Items(l, key, image, i) + (if i == 0 then "" else ", ")
      + if i < |l.keys| then Literal(Some(KeyAt(key, i)), l.cast(l.keys[i]))
        else Literal(ValueOf(image, l.cols[i - |l.keys|]), l.cast(l.cols[i - |l.keys|]))
  }

  function DeleteText(l: Layout, key: Key): string { "DELETE FROM " + l.target + " WHERE " + Where(l, key, |l.keys|) }

  function GroupText(l: Layout, key: Key, image: Image): string {
    "(" + Items(l, key, image, |l.keys| + |l.cols|) + ")"
  }

  /** `"a", "b", ...`. */
  function Names(names: seq<string>): string {
    if names == [] then ""
    else Names(names[..|names| - 1]) + (if |names| == 1 then "" else ", ") + "\"" + names[|names| - 1] + "\""
  }

  function Updates(names: seq<string>): string {
    if names == [] then ""
    else
      var c := names[|names| - 1];
      Updates(names[..|names| - 1]) + (if |names| == 1 then "" else ", ") + "\"" + c + "\" = EXCLUDED.\"" + c + "\""
  }

  /** The upsert around its groups. */
  function FrameText(l: Layout): string {
    "INSERT INTO " + l.target + " (" + Names(l.keys + l.cols) + ") VALUES " + " ON CONFLICT (" + Names(l.keys) + ")"
    + if l.cols == [] then " DO NOTHING" else " DO UPDATE SET " + Updates(l.cols)
  }

  // ----- the cheap estimate ----------------------------------------------------------------

  function DeleteOverhead(l: Layout): nat {
    |"DELETE FROM " + l.target + " WHERE \"" + (if l.keys == [] then "" else l.keys[0]) + "\" = "| + 24
  }

  function Chars(v: Option<string>): nat { if v.Some? then |v.value| else 4 }

  /** The characters of the first `n` values, four for each column besides. */
  function ValueChars(l: Layout, key: Key, image: Image, n: nat): nat
    requires n <= |l.keys| + |l.cols|
  {
    if n == 0 then 0
    else
      var i := n - 1;
      ValueChars(l, key, image, i) + 4
      + if i < |l.keys| then |KeyAt(key, i)| else Chars(ValueOf(image, l.cols[i - |l.keys|]))
  }

  /** `_netop_cheap_bytes`: characters, not bytes. */
  function Cheap(l: Layout, op: NetOp): nat {
    DeleteOverhead(l) + |KeyAt(op.key, 0)| + 16
    + if op.Upsert? then ValueChars(l, op.key, op.image, |l.keys| + |l.cols|) else 0
  }

  function SizesOf(l: Layout): Sizes {
    Sizes(key => Bytes(DeleteText(l, key)), (key, image) => Bytes(GroupText(l, key, image)), Bytes(FrameText(l)),
          op => Cheap(l, op))
  }
}
