/**
 What the NULL-handling settings mean, text by text (`_parse_null_rules` and `_parse_null_values` of
 scripts/glue_cdc_composite.py): which entry says which rule, and what is wrong with one that says
 none.
 */
module NullText {
  import opened Util
  import opened Text

  const SENTINEL := "__NULL_UNSET__"

  /** A column, lower-cased. */
  datatype Column = Column(schema: string, table: string, column: string)

  /** One column's rule: the markers that mean NULL; no marker at all for `none`. */
  datatype Rule = Rule(key: Column, markers: seq<string>)

  datatype RuleError = NoEquals | BadName | EmptyValues | EmptyMarker | Twice

  /** `text` is these parts with a `c` between each two, and no `c` in any of them. */
  predicate PartsOf(text: string, c: char, parts: seq<string>) {
    parts != [] && Without(parts, c) && Join(parts, c) == text
  }

  /** The sides of an entry, trimmed: what comes before its first `=`, and what comes behind. */
  ghost predicate SidesAre(entry: string, left: string, right: string) {
    exists a, b :: '=' !in a && Strip(entry) == a + ['='] + b && left == Strip(a) && right == Strip(b)
  }

  /** Three names that are not blank; white space around them and letter case are ignored. */
  predicate ThreeNames(parts: seq<string>, key: Column) {
    && |parts| == 3 && Strip(parts[0]) != "" && Strip(parts[1]) != "" && Strip(parts[2]) != ""
    && key == Column(Lower(Strip(parts[0])), Lower(Strip(parts[1])), Lower(Strip(parts[2])))
  }

  ghost predicate NameSays(text: string, key: Column) {
    exists parts :: PartsOf(text, '.', parts) && ThreeNames(parts, key)
  }

  /** `none`, in any letter case, or a list of markers of which none is empty. */
  ghost predicate ValuesSay(text: string, markers: seq<string>) {
    text != "" && if Lower(text) == "none" then markers == [] else PartsOf(text, '|', markers) && "" !in markers
  }

  ghost predicate Says(entry: string, r: Rule) {
    exists left, right :: SidesAre(entry, left, right) && NameSays(left, r.key) && ValuesSay(right, r.markers)
  }

  /** The marker list has an empty marker. */
  ghost predicate EmptyIn(text: string) {
    text != "" && Lower(text) != "none" && exists parts :: PartsOf(text, '|', parts) && "" in parts
  }

  /** What is wrong with an entry that is not blank and says no rule. */
  ghost predicate Wrong(entry: string, e: RuleError) {
    match e
    case NoEquals => Strip(entry) != "" && '=' !in Strip(entry)
    case BadName => exists left, right :: SidesAre(entry, left, right) && forall key :: !NameSays(left, key)
    case EmptyValues => exists left, key :: SidesAre(entry, left, "") && NameSays(left, key)
    case EmptyMarker => exists left, right, key :: SidesAre(entry, left, right) && NameSays(left, key) && EmptyIn(right)
    case Twice => false
  }

  predicate DistinctKeys(rules: seq<Rule>) {
    forall i, j :: 0 <= i < j < |rules| ==> rules[i].key != rules[j].key
  }

  predicate HasKey(rules: seq<Rule>, key: Column) {
    exists i :: 0 <= i < |rules| && rules[i].key == key
  }

  /** The places of the first `n` entries that are not blank. */
  predicate PlacesOf(entries: seq<string>, n: nat, at: seq<nat>)
    requires n <= |entries|
  {
    && (forall k :: 0 <= k < |at| ==> at[k] < n)
    && (forall i :: 0 <= i < n && Strip(entries[i]) != "" ==> i in at)
    && (forall j, k :: 0 <= j < k < |at| ==> at[j] < at[k])
  }

  ghost predicate SaidAt(entries: seq<string>, at: seq<nat>, rules: seq<Rule>) {
    |rules| == |at| && forall k :: 0 <= k < |at| ==> at[k] < |entries| && Says(entries[at[k]], rules[k])
  }

  /** Each of the first `n` entries is blank or says a rule, and these are the rules, no two for one
      column. */
  ghost predicate RulesSaid(entries: seq<string>, n: nat, rules: seq<Rule>)
    requires n <= |entries|
  {
    DistinctKeys(rules) && exists at :: PlacesOf(entries, n, at) && SaidAt(entries, at, rules)
  }

  /** The entry says a rule for a column that has one. */
  ghost predicate Again(entry: string, rules: seq<Rule>) { exists r :: Says(entry, r) && HasKey(rules, r.key) }

  /** Every entry up to the `i`-th is in order, and that one is not. */
  ghost predicate BadAt(entries: seq<string>, i: nat, e: RuleError) {
    i < |entries| && exists rules ::
      RulesSaid(entries, i, rules) && if e == Twice then Again(entries[i], rules) else Wrong(entries[i], e)
  }

  type Rules = Result<Option<seq<Rule>>, RuleError>

  /** What a rules text means: nothing, when it is not set; the rules of its entries; or what is wrong
      with the first entry that is not in order. */
  ghost predicate Means(raw: Option<string>, r: Rules) {
    if raw == None || raw == Some("") || raw == Some(SENTINEL) then r == Ok(None)
    else exists entries :: PartsOf(raw.value, ';', entries) &&
           match r
           case Ok(None) => false
           case Ok(Some(rules)) => RulesSaid(entries, |entries|, rules)
           case Err(e) => exists i: nat :: BadAt(entries, i, e)
  }
}
