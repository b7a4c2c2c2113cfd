/**
 Schema reconciliation (`handle_schema_changes` of scripts/glue_cdc_composite.py): a change file's
 header against the target's columns.  A column missing from the header whose old position now
 holds a new name is renamed; the other new names are added, in alphabetical order; nothing is
 dropped.  Names are lower-case and without the DMS control columns.
 */
module SchemaChange {
  import opened Util
  import opened Names
  import opened SchemaRules

  type Cell = Option<string>

  function New(cols: seq<Name>, header: seq<Name>): set<Name> { SetOf(header) - SetOf(cols) }

  function Missing(cols: seq<Name>, header: seq<Name>): set<Name> { SetOf(cols) - SetOf(header) }

  function Position(s: seq<Name>, x: Name): (i: nat)
    requires x in s
    ensures i < |s| && s[i] == x && forall k :: 0 <= k < i ==> s[k] != x
  {
    if s[0] == x then 0 else
      assert s == [s[0]] + s[1..];
      Position(s[1..], x) + 1
  }

  /** What a missing column is taken to be now. */
  function RenameOf(cols: seq<Name>, header: seq<Name>, rules: Rules, om: Name): Option<Name>
    requires om in cols
  {
    if om in rules.hints && rules.hints[om] in New(cols, header) then Some(rules.hints[om])
    else if rules.positional && Position(cols, om) < |header| && header[Position(cols, om)] in New(cols, header)
    then Some(header[Position(cols, om)])
    else None
  }

  function Renames(cols: seq<Name>, header: seq<Name>, rules: Rules): map<Name, Name> {
    map om | om in Missing(cols, header) && RenameOf(cols, header, rules, om).Some?
      :: RenameOf(cols, header, rules, om).value
  }

  function Adds(cols: seq<Name>, header: seq<Name>, rules: Rules): set<Name> {
    New(cols, header) - Renames(cols, header, rules).Values
  }

  // ----- DDL -------------------------------------------------------------------------------

  /** `ALTER TABLE ... RENAME COLUMN`: it fails, and changes nothing, when there is no such column
      or the new name is taken. */
  function Rename(cols: seq<Name>, from: Name, to: Name): (r: seq<Name>)
    ensures |r| == |cols|
  {
    if from in cols && to !in cols
    then seq(|cols|, i requires 0 <= i < |cols| => if cols[i] == from then to else cols[i])
    else cols
  }

  /** The renames, in the order the missing columns are visited. */
  function RunRenames(cols: seq<Name>, renames: map<Name, Name>, order: seq<Name>): (r: seq<Name>)
    ensures |r| == |cols|
  {
    if order == [] then cols
    else
      var c, om := RunRenames(cols, renames, order[..|order| - 1]), order[|order| - 1];
      if om in renames then Rename(c, om, renames[om]) else c
  }

  /** The ADDs; those in `fails` change nothing. */
  function RunAdds(cols: seq<Name>, order: seq<Name>, fails: set<Name>): (r: seq<Name>)
    ensures |r| >= |cols| && r[..|cols|] == cols
  {
    if order == [] then cols
    else
      var c, x := RunAdds(cols, order[..|order| - 1], fails), order[|order| - 1];
      if x in c || x in fails then c else c + [x]
  }

  const NONE := Failures({}, {})

  /** The columns after reconciliation with failures.  A name whose RENAME fails is not added. */
  ghost function ReconciledBut(cols: seq<Name>, header: seq<Name>, rules: Rules, fails: Failures): seq<Name> {
    RunAdds(RunRenames(cols, Renames(cols, header, rules) - fails.renames, Sorted(Missing(cols, header))),
            Sorted(Adds(cols, header, rules)), fails.adds)
  }

  /** The columns when every statement works. */
  ghost function Reconciled(cols: seq<Name>, header: seq<Name>, rules: Rules): seq<Name> {
    ReconciledBut(cols, header, rules, NONE)
  }

  /** A rename map goes from old names to names that are not. */
  predicate Proper(cols: seq<Name>, renames: map<Name, Name>) {
    forall om :: om in renames ==> om in cols && renames[om] !in cols
  }

  lemma RenamesAreProper(cols: seq<Name>, header: seq<Name>, rules: Rules)
    ensures Proper(cols, Renames(cols, header, rules))
    ensures Renames(cols, header, rules).Values <= New(cols, header)
  {
    forall om | om in Renames(cols, header, rules) ensures om in cols && Renames(cols, header, rules)[om] !in cols {
      var n := Renames(cols, header, rules)[om];
      assert n in New(cols, header);
      InSetOf(cols, n);
      InSetOf(cols, om);
    }
  }

  /** Each column keeps its place, under its own name or its new one. */
  lemma {:induction false} RenamesKeepPlaces(cols: seq<Name>, renames: map<Name, Name>, order: seq<Name>)
    requires Proper(cols, renames)
    ensures var r := RunRenames(cols, renames, order);
            forall i :: 0 <= i < |cols| ==>
              r[i] == cols[i] || (cols[i] in order && cols[i] in renames && r[i] == renames[cols[i]])
  {
    if order != [] {
      RenamesKeepPlaces(cols, renames, order[..|order| - 1]);
    }
  }

  /** A rename takes away an old name only. */
  lemma NewNameStays(cols: seq<Name>, c: seq<Name>, renames: map<Name, Name>, om: Name, x: Name)
    requires om in cols && om in renames && x !in cols && x in c
    ensures x in Rename(c, om, renames[om])
  {
    var k :| 0 <= k < |c| && c[k] == x;
    assert Rename(c, om, renames[om])[k] == x;
  }

  /** Every new name of the map is there once its old name was visited. */
  lemma {:induction false} RenamesArrive(cols: seq<Name>, renames: map<Name, Name>, order: seq<Name>)
    requires Proper(cols, renames) && Distinct(order)
    ensures forall om :: om in order && om in renames ==> renames[om] in RunRenames(cols, renames, order)
  {
    if order != [] {
      var front, om := order[..|order| - 1], order[|order| - 1];
      RenamesArrive(cols, renames, front);
      RenamesKeepPlaces(cols, renames, front);
      var c := RunRenames(cols, renames, front);
      if om in renames && renames[om] !in c {
        var i :| 0 <= i < |cols| && cols[i] == om;
        assert c[i] == om;
        assert Rename(c, om, renames[om])[i] == renames[om];
        forall x | x in front && x in renames ensures renames[x] in Rename(c, om, renames[om]) {
          NewNameStays(cols, c, renames, om, renames[x]);
        }
      }
    }
  }

  lemma {:induction false} AddsArrive(cols: seq<Name>, order: seq<Name>, fails: set<Name>)
    ensures forall x :: x in RunAdds(cols, order, fails) <==> x in cols || (x in order && x !in fails)
  {
    if order != [] {
      AddsArrive(cols, order[..|order| - 1], fails);
    }
  }

  /** The first rename to a name, in alphabetical order of the old names, is the one that works. */
  predicate Wins(renames: map<Name, Name>, om: Name) {
    om in renames && forall other :: other in renames && other != om && renames[other] == renames[om] ==>
        Before(om, other)
  }

  /** The same among the old names visited so far. */
  predicate WinsIn(renames: map<Name, Name>, order: seq<Name>, om: Name) {
    && om in order && om in renames
    && forall other :: other in order && other in renames && other != om && renames[other] == renames[om] ==>
        Before(om, other)
  }

  lemma {:induction false} RenamesExactly(cols: seq<Name>, renames: map<Name, Name>, order: seq<Name>)
    requires Proper(cols, renames) && Distinct(cols) && InOrder(order)
    ensures var r := RunRenames(cols, renames, order);
            forall i :: 0 <= i < |cols| ==>
                r[i] == if WinsIn(renames, order, cols[i]) then renames[cols[i]] else cols[i]
  {
    if order != [] {
      var front, om := order[..|order| - 1], order[|order| - 1];
      RenamesExactly(cols, renames, front);
      OrderedIsDistinct(order);
      assert order == front + [om];
      forall i | 0 <= i < |cols|
        ensures RunRenames(cols, renames, order)[i]
                == if WinsIn(renames, order, cols[i]) then renames[cols[i]] else cols[i]
      {
        LastVisited(cols, renames, front, om, i);
      }
    }
  }

  /** One more visit: it renames its column exactly if no earlier one took the name. */
  lemma LastVisited(cols: seq<Name>, renames: map<Name, Name>, front: seq<Name>, om: Name, i: nat)
    requires Proper(cols, renames) && Distinct(cols) && InOrder(front + [om]) && i < |cols|
    requires var c := RunRenames(cols, renames, front);
             forall k :: 0 <= k < |cols| ==>
                 c[k] == if WinsIn(renames, front, cols[k]) then renames[cols[k]] else cols[k]
    ensures var c, order := RunRenames(cols, renames, front), front + [om];
            (if om in renames then Rename(c, om, renames[om]) else c)[i]
            == if WinsIn(renames, order, cols[i]) then renames[cols[i]] else cols[i]
  {
    var c, order := RunRenames(cols, renames, front), front + [om];
    OrderedIsDistinct(order);
    assert om !in front by {
      assert forall k :: 0 <= k < |front| ==> order[k] == front[k] && order[|front|] == om;
    }
    assert forall x :: x in front ==> Before(x, om) by {
      assert forall k :: 0 <= k < |front| ==> order[k] == front[k] && order[|front|] == om;
    }
    assert forall x :: x in order <==> x in front || x == om;
    if om in renames {
      OrderedIsDistinct(front) by { assert forall k :: 0 <= k < |front| ==> order[k] == front[k]; }
      RenamesArrive(cols, renames, front);
      if cols[i] == om {
        OneRename(cols, renames, front, om, i);
      } else {
        assert c[i] != om by { assert cols[i] != om && renames[om] !in cols; }
        if WinsIn(renames, front, cols[i]) {
          BeforeIsTotal(cols[i], om);
        }
      }
    }
  }

  lemma OneRename(cols: seq<Name>, renames: map<Name, Name>, front: seq<Name>, om: Name, i: nat)
    requires Proper(cols, renames) && Distinct(cols) && i < |cols| && cols[i] == om && om in renames && om !in front
    requires forall x :: x in front ==> Before(x, om)
    requires forall x :: x in front && x in renames ==> renames[x] in RunRenames(cols, renames, front)
    requires var c := RunRenames(cols, renames, front);
             forall k :: 0 <= k < |cols| ==>
                 c[k] == if WinsIn(renames, front, cols[k]) then renames[cols[k]] else cols[k]
    ensures var c := RunRenames(cols, renames, front);
            Rename(c, om, renames[om])[i] == if WinsIn(renames, front + [om], om) then renames[om] else om
  {
    var c := RunRenames(cols, renames, front);
    assert c[i] == om && om in c;
    if renames[om] in c {
      var k :| 0 <= k < |c| && c[k] == renames[om];
      assert renames[om] !in cols;
      assert WinsIn(renames, front, cols[k]) && Before(cols[k], om);
      BeforeIsTotal(cols[k], om);
    }
  }

  lemma WinsAtTheEnd(cols: seq<Name>, header: seq<Name>, renames: map<Name, Name>, om: Name)
    requires forall x :: x in renames ==> x in Missing(cols, header)
    ensures WinsIn(renames, Sorted(Missing(cols, header)), om) <==> Wins(renames, om)
  {
    var order := Sorted(Missing(cols, header));
    forall x ensures x in order <==> x in Missing(cols, header) {
      InSetOf(order, x);
    }
  }

  /** What reconciliation leaves, column by column, whatever statements fail: each old column keeps
      its place, under its new name exactly if its rename neither fails nor loses that name to an
      earlier one; the names that do not fail to be added come behind. */
  lemma ReconciliationIs(cols: seq<Name>, header: seq<Name>, rules: Rules, fails: Failures)
    requires Distinct(cols)
    ensures
      var r, renames := ReconciledBut(cols, header, rules, fails), Renames(cols, header, rules) - fails.renames;
      && |r| >= |cols|
      && (forall i :: 0 <= i < |cols| ==> r[i] == if Wins(renames, cols[i]) then renames[cols[i]] else cols[i])
      && (forall x :: x in r <==> x in r[..|cols|] || x in Adds(cols, header, rules) - fails.adds)
  {
    var renames, order := Renames(cols, header, rules) - fails.renames, Sorted(Missing(cols, header));
    var adds := Sorted(Adds(cols, header, rules));
    var c, r := RunRenames(cols, renames, order), ReconciledBut(cols, header, rules, fails);
    RenamesAreProper(cols, header, rules);
    RenamesExactly(cols, renames, order);
    AddsArrive(c, adds, fails.adds);
    assert r[..|c|] == c;
    forall i | 0 <= i < |cols| ensures r[i] == if Wins(renames, cols[i]) then renames[cols[i]] else cols[i] {
      WinsAtTheEnd(cols, header, renames, cols[i]);
      assert r[i] == r[..|c|][i];
    }
    forall x ensures x in adds <==> x in Adds(cols, header, rules) {
      InSetOf(adds, x);
    }
  }

  /** The inferred renames are what the columns want. */
  lemma WantedIsRenamed(cols: seq<Name>, header: seq<Name>, rules: Rules, i: nat, x: Name)
    requires Distinct(cols) && i < |cols|
    ensures Wants(cols, header, rules, i, x) <==>
            cols[i] in Renames(cols, header, rules) && Renames(cols, header, rules)[cols[i]] == x
  {
    InSetOf(cols, cols[i]);
    InSetOf(header, cols[i]);
    InSetOf(cols, x);
    InSetOf(header, x);
    assert Position(cols, cols[i]) == i;
    if cols[i] in rules.hints {
      InSetOf(cols, rules.hints[cols[i]]);
      InSetOf(header, rules.hints[cols[i]]);
    }
    if i < |header| {
      InSetOf(cols, header[i]);
      InSetOf(header, header[i]);
    }
  }

  lemma GotIsWon(cols: seq<Name>, header: seq<Name>, rules: Rules, failed: set<Name>, i: nat, x: Name)
    requires Distinct(cols) && i < |cols|
    ensures var renames := Renames(cols, header, rules) - failed;
            Gets(cols, header, rules, failed, i, x) <==> Wins(renames, cols[i]) && renames[cols[i]] == x
  {
    var renames := Renames(cols, header, rules) - failed;
    WantedIsRenamed(cols, header, rules, i, x);
    forall k | 0 <= k < |cols| ensures Wants(cols, header, rules, k, x) && cols[k] !in failed <==>
                                       cols[k] in renames && renames[cols[k]] == x {
      WantedIsRenamed(cols, header, rules, k, x);
    }
    if Gets(cols, header, rules, failed, i, x) {
      forall other | other in renames && other != cols[i] && renames[other] == x ensures Before(cols[i], other) {
        InSetOf(cols, other);
        var k :| 0 <= k < |cols| && cols[k] == other;
      }
    }
  }

  lemma AddedIsAdd(cols: seq<Name>, header: seq<Name>, rules: Rules, failed: set<Name>, x: Name)
    requires Distinct(cols)
    ensures Added(cols, header, rules, failed, x) <==> x in Adds(cols, header, rules) && x !in failed
  {
    InSetOf(cols, x);
    InSetOf(header, x);
    forall k | 0 <= k < |cols|
      ensures Wants(cols, header, rules, k, x) <==>
              cols[k] in Renames(cols, header, rules) && Renames(cols, header, rules)[cols[k]] == x
    {
      WantedIsRenamed(cols, header, rules, k, x);
    }
    if x in Renames(cols, header, rules).Values {
      var om :| om in Renames(cols, header, rules) && Renames(cols, header, rules)[om] == x;
      InSetOf(cols, om);
      var k :| 0 <= k < |cols| && cols[k] == om;
    }
  }

  lemma AppendInOrder(tail: seq<Name>, front: seq<Name>, x: Name)
    requires InOrder(tail) && InOrder(front + [x]) && forall y :: y in tail ==> y in front
    ensures InOrder(tail + [x])
  {
    forall i | 0 <= i < |tail| ensures Before(tail[i], x) {
      assert tail[i] in front;
      var k :| 0 <= k < |front| && front[k] == tail[i];
      assert (front + [x])[k] == tail[i] && (front + [x])[|front|] == x;
    }
  }

  lemma PrefixInOrder(order: seq<Name>)
    requires InOrder(order) && order != []
    ensures InOrder(order[..|order| - 1]) && order[|order| - 1] !in order[..|order| - 1]
  {
    OrderedIsDistinct(order);
  }

  /** The ADDs append the names that are neither there nor fail, in their order. */
  lemma {:induction false} AddsInOrder(c: seq<Name>, order: seq<Name>, fails: set<Name>)
    requires InOrder(order)
    ensures var tail := RunAdds(c, order, fails)[|c|..];
            InOrder(tail) && forall x :: x in tail <==> x in order && x !in fails && x !in c
  {
    if order != [] {
      var front, x := order[..|order| - 1], order[|order| - 1];
      PrefixInOrder(order);
      AddsInOrder(c, front, fails);
      assert order == front + [x];
      OneMoreAdd(c, RunAdds(c, front, fails), front, x, fails);
    }
  }

  lemma OneMoreAdd(c: seq<Name>, r: seq<Name>, front: seq<Name>, x: Name, fails: set<Name>)
    requires |r| >= |c| && r[..|c|] == c && InOrder(front + [x]) && InOrder(r[|c|..]) && x !in front
    requires forall y :: y in r[|c|..] <==> y in front && y !in fails && y !in c
    ensures var tail := (if x in r || x in fails then r else r + [x])[|c|..];
            InOrder(tail) && forall y :: y in tail <==> y in front + [x] && y !in fails && y !in c
  {
    assert r == c + r[|c|..];
    if x !in r && x !in fails {
      assert (r + [x])[|c|..] == r[|c|..] + [x];
      AppendInOrder(r[|c|..], front, x);
    }
  }

  lemma AddIsNotThere(cols: seq<Name>, header: seq<Name>, rules: Rules, fails: Failures, x: Name)
    requires x in Adds(cols, header, rules)
    ensures x !in RunRenames(cols, Renames(cols, header, rules) - fails.renames, Sorted(Missing(cols, header)))
  {
    var renames := Renames(cols, header, rules) - fails.renames;
    var c := RunRenames(cols, renames, Sorted(Missing(cols, header)));
    RenamesAreProper(cols, header, rules);
    RenamesKeepPlaces(cols, renames, Sorted(Missing(cols, header)));
    InSetOf(cols, x);
    forall i | 0 <= i < |c| ensures c[i] != x {
      if cols[i] in renames {
        assert Renames(cols, header, rules)[cols[i]] in Renames(cols, header, rules).Values;
      }
    }
  }

  lemma TailIsAdded(cols: seq<Name>, header: seq<Name>, rules: Rules, fails: Failures)
    requires Distinct(cols)
    ensures var r := ReconciledBut(cols, header, rules, fails);
            |r| >= |cols| && InOrder(r[|cols|..])
            && forall x :: x in r[|cols|..] <==> Added(cols, header, rules, fails.adds, x)
  {
    var adds := Sorted(Adds(cols, header, rules));
    var c := RunRenames(cols, Renames(cols, header, rules) - fails.renames, Sorted(Missing(cols, header)));
    AddsInOrder(c, adds, fails.adds);
    forall x
      ensures x in ReconciledBut(cols, header, rules, fails)[|cols|..] <==> Added(cols, header, rules, fails.adds, x)
    {
      AddedIsAdd(cols, header, rules, fails.adds, x);
      InSetOf(adds, x);
      InSetOf(cols, x);
      if x in Adds(cols, header, rules) {
        AddIsNotThere(cols, header, rules, fails, x);
      }
    }
  }

  /** The columns after reconciliation are where the header and the rules say. */
  lemma ReconciliationLands(cols: seq<Name>, header: seq<Name>, rules: Rules, fails: Failures)
    requires Distinct(cols)
    ensures Landed(cols, header, rules, fails, ReconciledBut(cols, header, rules, fails))
  {
    var r, renames := ReconciledBut(cols, header, rules, fails), Renames(cols, header, rules) - fails.renames;
    ReconciliationIs(cols, header, rules, fails);
    TailIsAdded(cols, header, rules, fails);
    forall i: nat, x | Gets(cols, header, rules, fails.renames, i, x) ensures r[i] == x {
      GotIsWon(cols, header, rules, fails.renames, i, x);
    }
    forall i: nat | i < |cols| && (forall x :: !Gets(cols, header, rules, fails.renames, i, x))
      ensures r[i] == cols[i]
    {
      if Wins(renames, cols[i]) {
        GotIsWon(cols, header, rules, fails.renames, i, renames[cols[i]]);
      }
    }
  }

  /** Some rename to the name does not fail. */
  predicate Renamed(renames: map<Name, Name>, fails: Failures, x: Name) {
    exists om :: om in renames && om !in fails.renames && renames[om] == x
  }

  /** A name somebody renames a column to has a first rename. */
  lemma FirstRename(renames: map<Name, Name>, om: Name) returns (first: Name)
    requires om in renames
    ensures Wins(renames, first) && renames[first] == renames[om]
    decreases |renames|
  {
    if Wins(renames, om) {
      first := om;
    } else {
      var other :| other in renames && other != om && renames[other] == renames[om] && !Before(om, other);
      BeforeIsTotal(om, other);
      var fewer := renames - {om};
      assert fewer.Keys == renames.Keys - {om};
      first := FirstRename(fewer, other);
      if !Before(first, om) {
        BeforeIsTotal(first, om);
        if first != other {
          BeforeIsTransitive(first, other, om);
        }
      }
    }
  }

  /** Exactly which names of the header are no column afterwards: those whose ADD fails, and those
      every RENAME to which fails. */
  lemma NamesLeftOut(cols: seq<Name>, header: seq<Name>, rules: Rules, fails: Failures, x: Name)
    requires Distinct(cols) && x in header
    ensures x !in ReconciledBut(cols, header, rules, fails) <==>
            && x !in cols
            && (x in Adds(cols, header, rules) ==> x in fails.adds)
            && !Renamed(Renames(cols, header, rules), fails, x)
  {
    var renames := Renames(cols, header, rules) - fails.renames;
    var r := ReconciledBut(cols, header, rules, fails);
    ReconciliationIs(cols, header, rules, fails);
    RenamesAreProper(cols, header, rules);
    InSetOf(header, x);
    InSetOf(cols, x);
    if x in cols {
      var i :| 0 <= i < |cols| && cols[i] == x;
      assert x !in Missing(cols, header);
      assert r[..|cols|][i] == x;
    }
    if Renamed(Renames(cols, header, rules), fails, x) {
      var om :| om in Renames(cols, header, rules) && om !in fails.renames && Renames(cols, header, rules)[om] == x;
      var first := FirstRename(renames, om);
      var i :| 0 <= i < |cols| && cols[i] == first;
      assert r[..|cols|][i] == x;
    }
    if x in r[..|cols|] && x !in cols {
      var i :| 0 <= i < |cols| && r[i] == x;
      assert Wins(renames, cols[i]);
    }
  }

  /** Exactly which columns `apply_file` then finds missing in the header: those whose rename fails,
      loses its name, or was not inferred.  What is added does not matter. */
  lemma ColumnsLeftBehind(cols: seq<Name>, header: seq<Name>, rules: Rules, fails: Failures, keys: set<Name>)
    requires Distinct(cols)
    ensures StoppedSending(ReconciledBut(cols, header, rules, fails), header, keys)
            == set om | om in Missing(cols, header) && om !in keys
                && !Wins(Renames(cols, header, rules) - fails.renames, om)
  {
    var renames := Renames(cols, header, rules) - fails.renames;
    var r := ReconciledBut(cols, header, rules, fails);
    ReconciliationIs(cols, header, rules, fails);
    RenamesAreProper(cols, header, rules);
    forall om ensures om in Missing(r, header) <==> om in Missing(cols, header) && !Wins(renames, om) {
      InSetOf(r, om);
      InSetOf(cols, om);
      InSetOf(header, om);
      if om in Missing(cols, header) && !Wins(renames, om) {
        var i :| 0 <= i < |cols| && cols[i] == om;
        assert r[i] == om;
      }
      if om in Missing(r, header) {
        NotFromNew(cols, header, rules, fails, om);
      }
    }
  }

  lemma NotFromNew(cols: seq<Name>, header: seq<Name>, rules: Rules, fails: Failures, om: Name)
    requires Distinct(cols) && om in Missing(ReconciledBut(cols, header, rules, fails), header)
    ensures om in Missing(cols, header) && !Wins(Renames(cols, header, rules) - fails.renames, om)
  {
    var renames := Renames(cols, header, rules) - fails.renames;
    var r := ReconciledBut(cols, header, rules, fails);
    ReconciliationIs(cols, header, rules, fails);
    RenamesAreProper(cols, header, rules);
    InSetOf(r, om);
    InSetOf(header, om);
    assert om !in Adds(cols, header, rules);
    var i :| 0 <= i < |cols| && r[i] == om;
    InSetOf(cols, om);
  }

  /** A failed RENAME of a column that is no key always stops the file; a failed ADD never does: the
      file is applied without that column. */
  lemma FailedRenameStopsFailedAddDoesNot(cols: seq<Name>, header: seq<Name>, rules: Rules, fails: Failures,
                                          keys: set<Name>)
    requires Distinct(cols)
    ensures forall om :: om in Renames(cols, header, rules) && om in fails.renames && om !in keys ==>
              om in StoppedSending(ReconciledBut(cols, header, rules, fails), header, keys)
    ensures StoppedSending(ReconciledBut(cols, header, rules, fails), header, keys)
            == StoppedSending(ReconciledBut(cols, header, rules, fails.(adds := {})), header, keys)
    ensures forall x :: x in Adds(cols, header, rules) && x in fails.adds ==>
            x !in ReconciledBut(cols, header, rules, fails)
  {
    ColumnsLeftBehind(cols, header, rules, fails, keys);
    ColumnsLeftBehind(cols, header, rules, fails.(adds := {}), keys);
    forall x | x in Adds(cols, header, rules) && x in fails.adds
      ensures x !in ReconciledBut(cols, header, rules, fails)
    {
      InSetOf(header, x);
      InSetOf(cols, x);
      NamesLeftOut(cols, header, rules, fails, x);
      assert x !in Renames(cols, header, rules).Values;
    }
  }

  /** Without failures every name of the header is a column afterwards, and every old column is
      still there, in its place, under its own name or the one it was renamed to. */
  lemma ReconciliationLosesNothing(cols: seq<Name>, header: seq<Name>, rules: Rules)
    requires Distinct(cols)
    ensures
      var r, renames := Reconciled(cols, header, rules), Renames(cols, header, rules);
      && |r| >= |cols|
      && (forall i :: 0 <= i < |cols| ==> r[i] == cols[i] || (cols[i] in renames && r[i] == renames[cols[i]]))
      && (forall x :: x in header ==> x in r)
  {
    ReconciliationIs(cols, header, rules, NONE);
    forall x | x in header ensures x in Reconciled(cols, header, rules) {
      NamesLeftOut(cols, header, rules, NONE, x);
      InSetOf(header, x);
      InSetOf(cols, x);
    }
  }

  /** `apply_file`'s check: the columns the source stopped sending, key columns apart. */
  function StoppedSending(cols: seq<Name>, header: seq<Name>, keys: set<Name>): set<Name> {
    Missing(cols, header) - keys
  }

  // ----- the target ------------------------------------------------------------------------

  function Nulls(n: nat): (cells: seq<Cell>)
    ensures |cells| == n && forall i :: 0 <= i < n ==> cells[i] == None
  {
    seq(n, _ => None)
  }

  /** A target table: its columns in ordinal order, its rows cell by cell in that order, and the
      cached header and schema of the last file. */
  class Target {
    var cols: seq<Name>
    var rows: seq<seq<Cell>>
    var cache: Option<(seq<Name>, seq<Name>)>

    ghost predicate Valid()
      reads this
    {
      && (forall r :: 0 <= r < |rows| ==> |rows[r]| == |cols|)
      && Distinct(cols) && (cache.Some? ==> cache.value.1 == cols)
    }

    method AddColumns(order: seq<Name>, fails: set<Name>)
      requires forall r :: 0 <= r < |rows| ==> |rows[r]| == |cols|
      modifies this`cols, this`rows
      ensures cols == RunAdds(old(cols), order, fails) && |rows| == |old(rows)|
      ensures forall r :: 0 <= r < |rows| ==> rows[r] == old(rows[r]) + Nulls(|cols| - |old(cols)|)
    {
      for i := 0 to |order|
        invariant cols == RunAdds(old(cols), order[..i], fails) && |rows| == |old(rows)|
        invariant forall r :: 0 <= r < |rows| ==> rows[r] == old(rows[r]) + Nulls(|cols| - |old(cols)|)
      {
        assert order[..i + 1][..i] == order[..i];
        if order[i] !in cols && order[i] !in fails {
          cols := cols + [order[i]];
          var before := rows;
          rows := seq(|before|, r requires 0 <= r < |before| => before[r] + Nulls(1));
          assert Nulls(|cols| - 1 - |old(cols)|) + Nulls(1) == Nulls(|cols| - |old(cols)|);
        }
      }
      assert order[..|order|] == order;
    }

    method RenameColumns(renames: map<Name, Name>, order: seq<Name>, fails: set<Name>)
      modifies this`cols
      ensures cols == RunRenames(old(cols), renames - fails, order)
    {
      for i := 0 to |order|
        invariant cols == RunRenames(old(cols), renames - fails, order[..i])
      {
        assert order[..i + 1][..i] == order[..i];
        if order[i] in renames && order[i] !in fails {
          cols := Rename(cols, order[i], renames[order[i]]);
        }
      }
      assert order[..|order|] == order;
    }

    /** `handle_schema_changes`: from the cache when the header is the last one, from the catalog
        otherwise.  Rows keep their cells and get NULL in the added columns.  What a failed
        statement left undone is cached too: the same header does not try it again. */
    method HandleSchemaChanges(header: seq<Name>, rules: Rules, fails: Failures) returns (final: seq<Name>)
      requires Valid()
      modifies this
      ensures Valid() && final == cols && cache == Some((header, cols))
      ensures var cached := old(cache).Some? && old(cache).value.0 == header;
              cols == if cached then old(cols) else ReconciledBut(old(cols), header, rules, fails)
      ensures old(cache) == None || old(cache).value.0 != header ==> Landed(old(cols), header, rules, fails, cols)
      ensures |cols| >= |old(cols)| && |rows| == |old(rows)|
      ensures forall r, c :: 0 <= r < |rows| && 0 <= c < |cols| ==>
                |rows[r]| == |cols| && rows[r][c] == if c < |old(cols)| then old(rows)[r][c] else None
    {
      if cache.Some? && cache.value.0 == header {
        return cache.value.1;
      }
      ReconciliationLands(cols, header, rules, fails);
      var missing := Missing(cols, header);
      var renames, adds := Renames(cols, header, rules), Adds(cols, header, rules);
      if New(cols, header) != {} || missing != {} {
        ReconciledIsDistinct(cols, header, rules, fails);
        var order := Sort(missing);
        OrderIsUnique(order, Sorted(missing));
        RenameColumns(renames, order, fails.renames);
        var added := Sort(adds);
        OrderIsUnique(added, Sorted(adds));
        AddColumns(added, fails.adds);
      } else {
        NothingToDo(cols, header, rules, fails);
      }
      cache := Some((header, cols));
      final := cols;
    }
  }

  lemma {:induction false} RenamesStayDistinct(cols: seq<Name>, renames: map<Name, Name>, order: seq<Name>)
    requires Distinct(cols)
    ensures Distinct(RunRenames(cols, renames, order))
  {
    if order != [] {
      RenamesStayDistinct(cols, renames, order[..|order| - 1]);
    }
  }

  lemma {:induction false} AddsStayDistinct(cols: seq<Name>, order: seq<Name>, fails: set<Name>)
    requires Distinct(cols)
    ensures Distinct(RunAdds(cols, order, fails))
  {
    if order != [] {
      AddsStayDistinct(cols, order[..|order| - 1], fails);
    }
  }

  lemma ReconciledIsDistinct(cols: seq<Name>, header: seq<Name>, rules: Rules, fails: Failures)
    requires Distinct(cols)
    ensures Distinct(ReconciledBut(cols, header, rules, fails))
  {
    var order := Sorted(Missing(cols, header));
    RenamesStayDistinct(cols, Renames(cols, header, rules) - fails.renames, order);
    AddsStayDistinct(RunRenames(cols, Renames(cols, header, rules) - fails.renames, order),
                     Sorted(Adds(cols, header, rules)), fails.adds);
  }

  lemma NothingToDo(cols: seq<Name>, header: seq<Name>, rules: Rules, fails: Failures)
    requires New(cols, header) == {} && Missing(cols, header) == {}
    ensures ReconciledBut(cols, header, rules, fails) == cols
  {
    OrderIsUnique(Sorted({}), []);
    assert Renames(cols, header, rules) == map[];
    assert Adds(cols, header, rules) == {};
  }

  // ----- renames in place and appended columns ---------------------------------------------

  /** The source renamed some columns in place, to fresh names, and appended fresh ones. */
  predicate RenamedAndAppended(cols: seq<Name>, header: seq<Name>) {
    && Distinct(cols) && Distinct(header) && |cols| <= |header|
    && (forall i :: 0 <= i < |cols| ==> header[i] == cols[i] || header[i] !in cols)
    && (forall i :: |cols| <= i < |header| ==> header[i] !in cols)
  }

  function InPlace(cols: seq<Name>, header: seq<Name>): map<Name, Name>
    requires |cols| <= |header|
  {
    map x | x in cols && header[Position(cols, x)] != x :: header[Position(cols, x)]
  }

  lemma MissingIsRenamed(cols: seq<Name>, header: seq<Name>, i: nat)
    requires RenamedAndAppended(cols, header) && i < |cols|
    ensures Position(cols, cols[i]) == i
    ensures cols[i] in Missing(cols, header) <==> header[i] != cols[i]
    ensures header[i] in New(cols, header) <==> header[i] != cols[i]
  {
    InSetOf(cols, cols[i]);
    InSetOf(cols, header[i]);
    InSetOf(header, cols[i]);
    InSetOf(header, header[i]);
    assert forall k :: 0 <= k < |header| && k != i ==> header[k] != cols[i];
  }

  /** Without hints the inferred DDL is exactly those renames and those adds. */
  lemma RenamesAndAddsAreInferred(cols: seq<Name>, header: seq<Name>)
    requires RenamedAndAppended(cols, header)
    ensures var rules := Rules(map[], true);
            && Renames(cols, header, rules) == InPlace(cols, header)
            && Adds(cols, header, rules) == SetOf(header[|cols|..])
  {
    var rules := Rules(map[], true);
    var renames, expected := Renames(cols, header, rules), InPlace(cols, header);
    forall x ensures x in renames <==> x in expected
             ensures x in renames ==> renames[x] == expected[x] {
      InSetOf(cols, x);
      if x in cols {
        MissingIsRenamed(cols, header, Position(cols, x));
      }
    }
    forall x ensures x in Adds(cols, header, rules) <==> x in SetOf(header[|cols|..]) {
      AppendedIsAdded(cols, header, x);
    }
  }

  lemma AppendedIsAdded(cols: seq<Name>, header: seq<Name>, x: Name)
    requires RenamedAndAppended(cols, header)
    requires Renames(cols, header, Rules(map[], true)) == InPlace(cols, header)
    ensures x in Adds(cols, header, Rules(map[], true)) <==> x in SetOf(header[|cols|..])
  {
    var tail, renames := header[|cols|..], InPlace(cols, header);
    InSetOf(header, x);
    InSetOf(cols, x);
    InSetOf(tail, x);
    assert forall i :: 0 <= i < |tail| ==> header[|cols| + i] == tail[i];
    assert forall i :: |cols| <= i < |header| ==> header[i] == tail[i - |cols|];
    if x in header && x !in cols && x !in tail {
      var i :| 0 <= i < |header| && header[i] == x;
      MissingIsRenamed(cols, header, i);
      assert cols[i] in renames && renames[cols[i]] == x;
    }
  }

  /** One rename in place, when the columns before it in the visit are done. */
  lemma RenameOne(c: seq<Name>, p: nat, to: Name)
    requires p < |c| && to !in c && forall i :: 0 <= i < |c| && i != p ==> c[i] != c[p]
    ensures Rename(c, c[p], to) == c[p := to]
  {
  }

  /** The columns when those in `done` are renamed. */
  predicate HalfRenamed(c: seq<Name>, cols: seq<Name>, header: seq<Name>, done: seq<Name>)
    requires |cols| <= |header|
  {
    |c| == |cols| && forall i :: 0 <= i < |cols| ==> c[i] == if cols[i] in done then header[i] else cols[i]
  }

  lemma RenameNext(c: seq<Name>, cols: seq<Name>, header: seq<Name>, done: seq<Name>, om: Name)
    requires RenamedAndAppended(cols, header) && HalfRenamed(c, cols, header, done) && om !in done
    requires om in InPlace(cols, header)
    ensures HalfRenamed(Rename(c, om, InPlace(cols, header)[om]), cols, header, done + [om])
  {
    var p := Position(cols, om);
    assert c[p] == om;
    forall i | 0 <= i < |c| && i != p ensures c[i] != om && c[i] != header[p] {
      assert cols[i] != om;
    }
    RenameOne(c, p, header[p]);
  }

  lemma {:induction false} RenamesInPlace(cols: seq<Name>, header: seq<Name>, order: seq<Name>)
    requires RenamedAndAppended(cols, header) && Distinct(order)
    ensures HalfRenamed(RunRenames(cols, InPlace(cols, header), order), cols, header, order)
  {
    if order != [] {
      var front, om := order[..|order| - 1], order[|order| - 1];
      RenamesInPlace(cols, header, front);
      var c := RunRenames(cols, InPlace(cols, header), front);
      assert order == front + [om];
      if om in InPlace(cols, header) {
        RenameNext(c, cols, header, front, om);
      } else {
        OthersStay(c, cols, header, front, om);
      }
    }
  }

  lemma OthersStay(c: seq<Name>, cols: seq<Name>, header: seq<Name>, done: seq<Name>, om: Name)
    requires RenamedAndAppended(cols, header) && HalfRenamed(c, cols, header, done) && om !in InPlace(cols, header)
    ensures HalfRenamed(c, cols, header, done + [om])
  {
    forall i | 0 <= i < |cols| && cols[i] == om ensures header[i] == cols[i] {
      MissingIsRenamed(cols, header, i);
    }
  }

  lemma {:induction false} FreshAdds(cols: seq<Name>, order: seq<Name>)
    requires Distinct(order) && forall i :: 0 <= i < |order| ==> order[i] !in cols
    ensures RunAdds(cols, order, {}) == cols + order
  {
    if order != [] {
      var front := order[..|order| - 1];
      FreshAdds(cols, front);
      assert order == front + [order[|order| - 1]];
      assert order[|order| - 1] !in cols + front;
    }
  }

  /** The target then has exactly the header's columns: the old ones in place under their new
      names, the appended ones behind them in alphabetical order. */
  lemma TargetFollowsTheHeader(cols: seq<Name>, header: seq<Name>)
    requires RenamedAndAppended(cols, header)
    ensures Reconciled(cols, header, Rules(map[], true)) == header[..|cols|] + Sorted(SetOf(header[|cols|..]))
    ensures SetOf(Reconciled(cols, header, Rules(map[], true))) == SetOf(header)
  {
    var rules, order, tail := Rules(map[], true), Sorted(Missing(cols, header)), header[|cols|..];
    RenamesAndAddsAreInferred(cols, header);
    OrderedIsDistinct(order);
    RenamesInPlace(cols, header, order);
    assert InPlace(cols, header) - {} == InPlace(cols, header);
    var c := RunRenames(cols, InPlace(cols, header), order);
    forall i | 0 <= i < |cols| ensures c[i] == header[i] {
      MissingIsRenamed(cols, header, i);
      InSetOf(order, cols[i]);
    }
    assert c == header[..|cols|];
    var adds := Sorted(SetOf(tail));
    OrderedIsDistinct(adds);
    forall i | 0 <= i < |adds| ensures adds[i] !in c {
      assert adds[i] in SetOf(adds);
      var k :| 0 <= k < |tail| && tail[k] == adds[i];
      assert header[|cols| + k] == adds[i];
    }
    FreshAdds(c, adds);
    forall x ensures x in SetOf(c + adds) <==> x in SetOf(header) {
      InSetOf(c + adds, x);
      InSetOf(adds, x);
      InSetOf(tail, x);
      InSetOf(header, x);
      assert header == header[..|cols|] + tail;
    }
  }

  /** So the file is applied, and each old cell is found under its column's new name. */
  lemma NoColumnIsMissingAfterwards(cols: seq<Name>, header: seq<Name>, keys: set<Name>)
    requires RenamedAndAppended(cols, header)
    ensures StoppedSending(Reconciled(cols, header, Rules(map[], true)), header, keys) == {}
    ensures forall i :: 0 <= i < |cols| ==> Reconciled(cols, header, Rules(map[], true))[i] == header[i]
  {
    TargetFollowsTheHeader(cols, header);
  }

  // ----- where positions stop agreeing -----------------------------------------------------

  /** The target's column order equals the header's, so that the next rename can be inferred by
      position, exactly when the appended columns came in alphabetical order. */
  lemma PositionsAgreeExactlyWhenSorted(cols: seq<Name>, header: seq<Name>)
    requires RenamedAndAppended(cols, header)
    ensures Reconciled(cols, header, Rules(map[], true)) == header <==> InOrder(header[|cols|..])
  {
    TargetFollowsTheHeader(cols, header);
    var head, tail := header[..|cols|], header[|cols|..];
    var adds := Sorted(SetOf(tail));
    assert header == head + tail;
    assert (head + adds)[|head|..] == adds && (head + tail)[|head|..] == tail;
    if InOrder(tail) {
      OrderIsUnique(tail, adds);
    }
  }
}
