/**
 Renames by position in a later file (`handle_schema_changes` of scripts/glue_cdc_composite.py),
 when the target holds the columns of the last header in an order of its own: appended columns are
 added alphabetically, so a position in the target need not be the position in the file.
 */
module LaterRenames {
  import opened Util
  import opened Names
  import opened SchemaRules
  import opened SchemaChange

  const POSITIONAL := Rules(map[], true)

  /** The target has the header's columns, in some order. */
  predicate SameColumns(cols: seq<Name>, header: seq<Name>) {
    Distinct(cols) && Distinct(header) && |cols| == |header| && SetOf(cols) == SetOf(header)
  }

  lemma SameMembers(cols: seq<Name>, header: seq<Name>, x: Name)
    requires SameColumns(cols, header)
    ensures x in cols <==> x in header
  {
    InSetOf(cols, x);
    InSetOf(header, x);
  }

  /** The file that renames columns of `header` in place: what is new and what is missing does not
      depend on the target's order. */
  lemma SameNews(cols: seq<Name>, header: seq<Name>, second: seq<Name>)
    requires SameColumns(cols, header) && RenamedAndAppended(header, second)
    ensures New(cols, second) == New(header, second) && Missing(cols, second) == Missing(header, second)
    ensures Missing(header, second) == InPlace(header, second).Keys
  {
    forall x ensures x in Missing(header, second) <==> x in InPlace(header, second) {
      InSetOf(header, x);
      if x in header {
        MissingIsRenamed(header, second, Position(header, x));
      }
    }
  }

  /** A renamed column is looked up at its position in the target. */
  lemma LookedUpInTarget(cols: seq<Name>, header: seq<Name>, second: seq<Name>, x: Name)
    requires SameColumns(cols, header) && RenamedAndAppended(header, second) && x in InPlace(header, second)
    ensures x in cols && x in header && Position(cols, x) < |header| <= |second|
    ensures RenameOf(cols, second, POSITIONAL, x)
            == var j := Position(cols, x); if second[j] == header[j] then None else Some(second[j])
  {
    SameNews(cols, header, second);
    SameMembers(cols, header, x);
    MissingIsRenamed(header, second, Position(cols, x));
  }

  lemma InferredAlike(cols: seq<Name>, header: seq<Name>, second: seq<Name>, x: Name)
    requires SameColumns(cols, header) && RenamedAndAppended(header, second) && x in InPlace(header, second)
    ensures var inferred, meant := Renames(cols, second, POSITIONAL), InPlace(header, second);
            x in cols && (x in inferred && inferred[x] == meant[x] <==> Position(cols, x) == Position(header, x))
  {
    SameNews(cols, header, second);
    LookedUpInTarget(cols, header, second, x);
    var j, i := Position(cols, x), Position(header, x);
    assert second[i] != header[i];
    assert j != i ==> second[j] != second[i];
  }

  lemma AlignedIsInferred(cols: seq<Name>, header: seq<Name>, second: seq<Name>)
    requires SameColumns(cols, header) && RenamedAndAppended(header, second)
    requires forall x :: x in InPlace(header, second) ==> x in cols && Position(cols, x) == Position(header, x)
    ensures Renames(cols, second, POSITIONAL) == InPlace(header, second)
  {
    var inferred, meant := Renames(cols, second, POSITIONAL), InPlace(header, second);
    SameNews(cols, header, second);
    forall x | x in meant ensures x in inferred && inferred[x] == meant[x] {
      InferredAlike(cols, header, second, x);
    }
    assert inferred.Keys <= meant.Keys;
  }

  /** Later renames in place are inferred exactly when every renamed column is at the same position
      in the target and in the last header. */
  lemma LaterRenamesAreInferredExactly(cols: seq<Name>, header: seq<Name>, second: seq<Name>)
    requires SameColumns(cols, header) && RenamedAndAppended(header, second)
    ensures Renames(cols, second, POSITIONAL) == InPlace(header, second) <==>
            forall x :: x in InPlace(header, second) ==> x in cols && Position(cols, x) == Position(header, x)
  {
    var meant := InPlace(header, second);
    if forall x :: x in meant ==> x in cols && Position(cols, x) == Position(header, x) {
      AlignedIsInferred(cols, header, second);
    } else if Renames(cols, second, POSITIONAL) == meant {
      forall x | x in meant ensures x in cols && Position(cols, x) == Position(header, x) {
        InferredAlike(cols, header, second, x);
      }
    }
  }

  // ----- after the adds of an earlier file -------------------------------------------------

  /** The target after an earlier file has that file's columns. */
  lemma ReconciledHasTheColumns(cols: seq<Name>, header: seq<Name>)
    requires RenamedAndAppended(cols, header)
    ensures SameColumns(Reconciled(cols, header, POSITIONAL), header)
  {
    TargetFollowsTheHeader(cols, header);
    ReconciledIsDistinct(cols, header, POSITIONAL, NONE);
    SizeOfDistinct(Reconciled(cols, header, POSITIONAL));
    SizeOfDistinct(header);
  }

  lemma {:induction false} FreshName(s: seq<Name>) returns (x: Name)
    ensures x !in s && forall y :: y in s ==> |y| < |x|
  {
    x := "x";
    if s != [] {
      var rest := FreshName(s[..|s| - 1]);
      x := rest + s[|s| - 1] + "x";
      assert forall y :: y in s ==> y in s[..|s| - 1] || y == s[|s| - 1];
    }
  }

  /** Some column of two different orders of the same columns is in different places. */
  lemma SomeColumnMoved(cols: seq<Name>, header: seq<Name>) returns (i: nat)
    requires SameColumns(cols, header) && cols != header
    ensures i < |header| && header[i] in cols && Position(cols, header[i]) != i && Position(header, header[i]) == i
  {
    i :| 0 <= i < |header| && cols[i] != header[i];
    SameMembers(cols, header, header[i]);
  }

  /** Renaming one column of a header, in place, to a new name. */
  lemma RenameOneColumn(header: seq<Name>, i: nat, another: Name)
    requires Distinct(header) && i < |header| && another !in header
    ensures RenamedAndAppended(header, header[i := another])
    ensures InPlace(header, header[i := another]) == map[header[i] := another]
  {
    var second := header[i := another];
    assert forall j :: 0 <= j < |header| && j != i ==> second[j] == header[j];
    forall x ensures x in InPlace(header, second) <==> x == header[i] {
      if x in header {
        assert header[Position(header, x)] == x;
      }
    }
  }

  /** Every later rename in place is inferred if and only if the columns that an earlier file
      appended came in alphabetical order. */
  lemma EveryLaterRenameIsInferredExactlyWhenSorted(cols: seq<Name>, header: seq<Name>)
    requires RenamedAndAppended(cols, header)
    ensures InOrder(header[|cols|..]) <==>
            forall second :: RenamedAndAppended(header, second) ==>
              Renames(Reconciled(cols, header, POSITIONAL), second, POSITIONAL) == InPlace(header, second)
  {
    var target := Reconciled(cols, header, POSITIONAL);
    PositionsAgreeExactlyWhenSorted(cols, header);
    ReconciledHasTheColumns(cols, header);
    if target == header {
      forall second | RenamedAndAppended(header, second)
        ensures Renames(target, second, POSITIONAL) == InPlace(header, second)
      {
        LaterRenamesAreInferredExactly(target, header, second);
      }
    } else {
      var i := SomeColumnMoved(target, header);
      var another := FreshName(header);
      RenameOneColumn(header, i, another);
      LaterRenamesAreInferredExactly(target, header, header[i := another]);
      assert header[i] in InPlace(header, header[i := another]);
    }
  }

  // ----- what happens instead --------------------------------------------------------------

  lemma PlacesDiffer(cols: seq<Name>, second: seq<Name>, x: Name, y: Name)
    requires Distinct(second) && |cols| <= |second| && x in cols && y in cols && x != y
    ensures second[Position(cols, x)] != second[Position(cols, y)]
  {
    assert cols[Position(cols, x)] != cols[Position(cols, y)];
  }

  /** Renames looked up by position never compete for a name. */
  lemma PositionalRenamesWin(cols: seq<Name>, header: seq<Name>, second: seq<Name>, x: Name)
    requires SameColumns(cols, header) && RenamedAndAppended(header, second)
    ensures var renames := Renames(cols, second, POSITIONAL) - NONE.renames; Wins(renames, x) <==> x in renames
  {
    var renames := Renames(cols, second, POSITIONAL) - NONE.renames;
    SameNews(cols, header, second);
    if x in renames {
      LookedUpInTarget(cols, header, second, x);
      forall y | y in renames && y != x ensures renames[y] != renames[x] {
        LookedUpInTarget(cols, header, second, y);
        PlacesDiffer(cols, second, x, y);
      }
    }
  }

  /** Whether the rename of one column goes through, and to what name. */
  lemma WinsWhere(cols: seq<Name>, header: seq<Name>, second: seq<Name>, x: Name)
    requires SameColumns(cols, header) && RenamedAndAppended(header, second)
    ensures var renames := Renames(cols, second, POSITIONAL) - NONE.renames;
            && (x in InPlace(header, second) ==>
                  && x in cols && Position(cols, x) < |header| <= |second|
                  && (Wins(renames, x) <==> second[Position(cols, x)] != header[Position(cols, x)])
                  && (Wins(renames, x) ==> renames[x] == second[Position(cols, x)]))
            && (x !in InPlace(header, second) ==> !Wins(renames, x))
  {
    SameNews(cols, header, second);
    PositionalRenamesWin(cols, header, second, x);
    if x in InPlace(header, second) {
      LookedUpInTarget(cols, header, second, x);
    }
  }

  lemma RenamesLand(cols: seq<Name>, header: seq<Name>, second: seq<Name>, j: nat)
    requires SameColumns(cols, header) && RenamedAndAppended(header, second) && j < |cols|
    ensures
      var r, meant := Reconciled(cols, second, POSITIONAL), InPlace(header, second);
      j < |r| && r[j] == if cols[j] in meant && second[j] != header[j] then second[j] else cols[j]
  {
    ReconciliationIs(cols, second, POSITIONAL, NONE);
    WinsWhere(cols, header, second, cols[j]);
    assert Position(cols, cols[j]) == j;
  }

  lemma RenamesLeaveBehind(cols: seq<Name>, header: seq<Name>, second: seq<Name>, keys: set<Name>)
    requires SameColumns(cols, header) && RenamedAndAppended(header, second)
    ensures
      StoppedSending(Reconciled(cols, second, POSITIONAL), second, keys)
      == set x | x in InPlace(header, second) && x in cols && x !in keys
                 && second[Position(cols, x)] == header[Position(cols, x)]
  {
    SameNews(cols, header, second);
    ColumnsLeftBehind(cols, second, POSITIONAL, NONE, keys);
    forall x | x in InPlace(header, second)
      ensures x in cols
      ensures Wins(Renames(cols, second, POSITIONAL) - NONE.renames, x) <==>
              second[Position(cols, x)] != header[Position(cols, x)]
    {
      WinsWhere(cols, header, second, x);
    }
  }

  /** Where a later file's renames land.  The column at target position `j` gets the name the file
      has at `j` if that is new, though the source may have renamed another column to it; a renamed
      column whose target position holds an old name is left behind, and the file is refused. */
  lemma WhereLaterRenamesLand(cols: seq<Name>, header: seq<Name>, second: seq<Name>, keys: set<Name>)
    requires SameColumns(cols, header) && RenamedAndAppended(header, second)
    ensures
      var r, meant := Reconciled(cols, second, POSITIONAL), InPlace(header, second);
      && |cols| <= |r| && |cols| <= |second|
      && (forall j :: 0 <= j < |cols| ==>
            r[j] == if cols[j] in meant && second[j] != header[j] then second[j] else cols[j])
      && StoppedSending(r, second, keys)
         == set x | x in meant && x in cols && x !in keys && second[Position(cols, x)] == header[Position(cols, x)]
  {
    forall j | 0 <= j < |cols|
      ensures j < |Reconciled(cols, second, POSITIONAL)|
      ensures Reconciled(cols, second, POSITIONAL)[j]
              == if cols[j] in InPlace(header, second) && second[j] != header[j] then second[j] else cols[j]
    {
      RenamesLand(cols, header, second, j);
    }
    RenamesLeaveBehind(cols, header, second, keys);
    ReconciliationIs(cols, second, POSITIONAL, NONE);
  }

  /** The two readings of that for one renamed column: it is left behind, or it gets this name. */
  lemma WhereOneLands(cols: seq<Name>, header: seq<Name>, second: seq<Name>, x: Name)
    requires SameColumns(cols, header) && RenamedAndAppended(header, second) && x in InPlace(header, second)
    ensures x in cols && Position(cols, x) < |cols| <= |second|
    ensures var r, j := Reconciled(cols, second, POSITIONAL), Position(cols, x);
            && j < |r| && r[j] == (if second[j] != header[j] then second[j] else x)
            && (x in StoppedSending(r, second, {}) <==> second[j] == header[j])
  {
    LookedUpInTarget(cols, header, second, x);
    WhereLaterRenamesLand(cols, header, second, {});
    assert cols[Position(cols, x)] == x;
  }

  /** When such a file is applied, a renamed column's old cells stand under the name the source gave
      it exactly when its positions in the target and in the last header agree. */
  lemma AppliedUnderTheRightNamesExactly(cols: seq<Name>, header: seq<Name>, second: seq<Name>, x: Name)
    requires SameColumns(cols, header) && RenamedAndAppended(header, second) && x in InPlace(header, second)
    requires StoppedSending(Reconciled(cols, second, POSITIONAL), second, {}) == {}
    ensures x in cols && Position(cols, x) < |Reconciled(cols, second, POSITIONAL)|
    ensures Reconciled(cols, second, POSITIONAL)[Position(cols, x)] == InPlace(header, second)[x] <==>
            Position(cols, x) == Position(header, x)
  {
    WhereOneLands(cols, header, second, x);
  }

  // ----- the two failures ------------------------------------------------------------------

  lemma TwoNames(x: Name, y: Name)
    ensures SetOf([x, y]) == {x, y}
  {
    EmptyList([]);
    SetOfSnoc([], x);
    SetOfSnoc([x], y);
    assert [] + [x] == [x] && [x] + [y] == [x, y];
  }

  lemma PlacesOf(a: Name, b: Name, c: Name)
    requires a != b && b != c && a != c
    ensures Position([a, b, c], a) == 0 && Position([a, b, c], b) == 1 && Position([a, b, c], c) == 2
    ensures Distinct([a, b, c]) && forall x :: x in [a, b, c] <==> x == a || x == b || x == c
  {
    assert [a, b, c][0] == a && [a, b, c][1] == b && [a, b, c][2] == c;
  }

  /** Behind `a`, `z` and `y` are appended in that order: the target holds `a`, `y`, `z`. */
  lemma FirstFile(a: Name, y: Name, z: Name)
    requires Before(y, z) && a != y && a != z && y != z
    ensures RenamedAndAppended([a], [a, z, y])
    ensures Reconciled([a], [a, z, y], POSITIONAL) == [a, y, z]
    ensures SameColumns([a, y, z], [a, z, y])
  {
    var header := [a, z, y];
    PlacesOf(a, z, y);
    assert header[1..] == [z, y] && header[..1] == [a];
    TargetFollowsTheHeader([a], header);
    TwoNames(z, y);
    TwoNames(y, z);
    OrderIsUnique(Sorted(SetOf([z, y])), [y, z]);
    assert [a] + [y, z] == [a, y, z];
    ReconciledHasTheColumns([a], header);
  }

  lemma SecondFile(a: Name, y: Name, z: Name, y': Name, z': Name)
    requires Distinct([a, y, z, z']) && a != y' && z' != y' && z != y'
    ensures var header, second := [a, z, y], [a, z', y'];
            && RenamedAndAppended(header, second)
            && forall x :: x in InPlace(header, second) <==> x == z || (x == y && y != y')
    ensures InPlace([a, z, y], [a, z', y'])[z] == z'
    ensures y != y' ==> InPlace([a, z, y], [a, z', y'])[y] == y'
  {
    var l := [a, y, z, z'];
    assert l[0] != l[1] && l[0] != l[2] && l[0] != l[3] && l[1] != l[2] && l[1] != l[3] && l[2] != l[3];
    PlacesOf(a, z, y);
    PlacesOf(a, z', y');
  }

  /** Renaming `z` to `w` then is not seen: the file is refused for the missing `z`. */
  lemma LaterRenameIsMissed(a: Name, y: Name, z: Name, w: Name)
    requires Before(y, z) && Distinct([a, y, z, w])
    ensures
      var first, second, cols := [a, z, y], [a, w, y], [a, y, z];
      && RenamedAndAppended([a], first) && Reconciled([a], first, POSITIONAL) == cols
      && RenamedAndAppended(first, second) && InPlace(first, second) == map[z := w]
      && z in StoppedSending(Reconciled(cols, second, POSITIONAL), second, {})
  {
    var l := [a, y, z, w];
    assert l[0] != l[1] && l[0] != l[2] && l[0] != l[3] && l[1] != l[2] && l[1] != l[3] && l[2] != l[3];
    FirstFile(a, y, z);
    SecondFile(a, y, z, y, w);
    PlacesOf(a, y, z);
    WhereOneLands([a, y, z], [a, z, y], [a, w, y], z);
  }

  /** Renaming both, `z` to `w` and `y` to `v`, is worse: nothing is missing, so the file is
      applied, with the old cells of `y` under `w` and those of `z` under `v`. */
  lemma LaterRenamesCanBeSwapped(a: Name, y: Name, z: Name, w: Name, v: Name)
    requires Before(y, z) && Distinct([a, y, z, w]) && v !in [a, y, z, w]
    ensures
      var first, second, cols := [a, z, y], [a, w, v], [a, y, z];
      && RenamedAndAppended([a], first) && Reconciled([a], first, POSITIONAL) == cols
      && RenamedAndAppended(first, second) && InPlace(first, second) == map[z := w, y := v]
      && var r := Reconciled(cols, second, POSITIONAL);
      && StoppedSending(r, second, {}) == {} && |r| >= 3 && r[1] == w && r[2] == v
  {
    var l := [a, y, z, w];
    assert l[0] != l[1] && l[0] != l[2] && l[0] != l[3] && l[1] != l[2] && l[1] != l[3] && l[2] != l[3];
    assert v != l[0] && v != l[1] && v != l[2] && v != l[3];
    FirstFile(a, y, z);
    SecondFile(a, y, z, v, w);
    SwappedLand(a, y, z, w, v);
  }

  lemma SwappedLand(a: Name, y: Name, z: Name, w: Name, v: Name)
    requires a != y && a != z && y != z && v != y && w != z
    requires SameColumns([a, y, z], [a, z, y]) && RenamedAndAppended([a, z, y], [a, w, v])
    requires InPlace([a, z, y], [a, w, v]) == map[z := w, y := v]
    ensures var r := Reconciled([a, y, z], [a, w, v], POSITIONAL);
            StoppedSending(r, [a, w, v], {}) == {} && |r| >= 3 && r[1] == w && r[2] == v
  {
    PlacesOf(a, y, z);
    WhereOneLands([a, y, z], [a, z, y], [a, w, v], z);
    WhereOneLands([a, y, z], [a, z, y], [a, w, v], y);
    NothingStopped([a, y, z], [a, z, y], [a, w, v]);
  }

  lemma NothingStopped(cols: seq<Name>, header: seq<Name>, second: seq<Name>)
    requires SameColumns(cols, header) && RenamedAndAppended(header, second)
    requires forall x :: x in InPlace(header, second) ==>
             x !in StoppedSending(Reconciled(cols, second, POSITIONAL), second, {})
    ensures StoppedSending(Reconciled(cols, second, POSITIONAL), second, {}) == {}
  {
    WhereLaterRenamesLand(cols, header, second, {});
  }
}
