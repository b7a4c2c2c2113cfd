/**
 What a change file's header means for a target's columns, column by column: which missing column is
 taken to be renamed, and to what, and what is added (the comments of `handle_schema_changes`,
 scripts/glue_cdc_composite.py).
 */
module SchemaRules {
  import opened Util
  import opened Names

  /** `hints` are the operator's explicit renames; `positional` is the single-swap setting or a DDL
      event of the source. */
  datatype Rules = Rules(hints: map<Name, Name>, positional: bool)

  /** The statements that fail for a reason of their own and change nothing: RENAMEs by the old
      name, ADDs by the new one.  A failure is only logged. */
  datatype Failures = Failures(renames: set<Name>, adds: set<Name>)

  /** The operator's hint for this column names a new column of the header. */
  predicate Hinted(cols: seq<Name>, header: seq<Name>, rules: Rules, i: nat) {
    i < |cols| && cols[i] in rules.hints && rules.hints[cols[i]] in header && rules.hints[cols[i]] !in cols
  }

  /** The column at this place is missing from the header and is to be renamed to this new name: the
      hinted one, or without a usable hint the one at its place in the header. */
  predicate Wants(cols: seq<Name>, header: seq<Name>, rules: Rules, i: nat, x: Name) {
    && i < |cols| && cols[i] !in header && x in header && x !in cols
    && if Hinted(cols, header, rules, i) then rules.hints[cols[i]] == x
       else rules.positional && i < |header| && header[i] == x
  }

  /** Of the columns that want a name and whose RENAME does not fail, the alphabetically first gets it. */
  predicate Gets(cols: seq<Name>, header: seq<Name>, rules: Rules, failed: set<Name>, i: nat, x: Name) {
    && Wants(cols, header, rules, i, x) && cols[i] !in failed
    && forall k :: 0 <= k < |cols| && k != i && Wants(cols, header, rules, k, x) && cols[k] !in failed ==>
         Before(cols[i], cols[k])
  }

  /** The name is added: it is new, no column wants it, and its ADD does not fail. */
  predicate Added(cols: seq<Name>, header: seq<Name>, rules: Rules, failed: set<Name>, x: Name) {
    && x in header && x !in cols && x !in failed
    && forall i :: 0 <= i < |cols| ==> !Wants(cols, header, rules, i, x)
  }

  /** The columns after reconciliation: each old one in its place, under the name it gets or its own,
      and behind them the added names in alphabetical order. */
  ghost predicate Landed(cols: seq<Name>, header: seq<Name>, rules: Rules, fails: Failures, r: seq<Name>) {
    && |r| >= |cols|
    && (forall i: nat, x :: Gets(cols, header, rules, fails.renames, i, x) ==> r[i] == x)
    && (forall i: nat :: i < |cols| && (forall x :: !Gets(cols, header, rules, fails.renames, i, x)) ==>
          r[i] == cols[i])
    && (forall x :: x in r[|cols|..] <==> Added(cols, header, rules, fails.adds, x))
    && InOrder(r[|cols|..])
  }
}
