/**
 What a task's table-mapping rules mean for the tables DMS reports, rule by rule: which tables are
 chosen, what their folders are called, and what a build or preflight's estimate makes of them (the
 rule fields as lambdas/resolve_task.py reads them).
 */
module MappingRules {
  import opened Util
  import opened Text

  const MAX_DISTINCT_SCHEMAS := 9

  datatype RuleType = Selection | Transformation | OtherType

  datatype Target = SchemaTarget | TableTarget | OtherTarget

  /** Rule actions; any other text, and a missing one in a transformation, is `OtherAction`. */
  datatype Action =
    | Include | Exclude
    | Rename | ConvertLowercase | ConvertUppercase | AddPrefix | AddSuffix | RemovePrefix | RemoveSuffix
    | OtherAction

  /** One rule of the task, its keywords read in any letter case; absent fields are `None`. */
  datatype Rule = Rule(ruleType: RuleType, target: Target, action: Option<Action>,
                       schemaPattern: Option<string>, tablePattern: Option<string>, value: Option<string>)

  datatype MappingError = UnsupportedTransform | NotLoaded | NoTables | TooManySchemas

  /** One row of DMS table statistics; `completed` is the state "Table completed". */
  datatype Stat = Stat(schema: string, table: string, completed: bool)

  type Folder = (string, string)

  type Build = Result<(seq<Folder>, set<string>), MappingError>

  // ----- which tables are chosen -----------------------------------------------------------

  /** The name is `pattern` with a run of characters for each `%` or `*` and one character for each `_`. */
  predicate Fits(pattern: string, name: string)
    decreases |pattern| + |name|
  {
    if pattern == "" then name == ""
    else if pattern[0] == '%' || pattern[0] == '*' then
      exists k :: 0 <= k <= |name| && Fits(pattern[1..], name[k..])
    else name != "" && (pattern[0] == '_' || pattern[0] == name[0]) && Fits(pattern[1..], name[1..])
  }

  predicate Picks(r: Rule, schema: string, table: string) {
    && r.ruleType == Selection
    && (r.schemaPattern == None || Fits(r.schemaPattern.value, schema))
    && (r.tablePattern == None || Fits(r.tablePattern.value, table))
  }

  /** The last rule that picks the table is an include. */
  ghost predicate Chosen(rules: seq<Rule>, schema: string, table: string) {
    exists i :: 0 <= i < |rules| && Picks(rules[i], schema, table) && rules[i].action in {None, Some(Include)} &&
                forall k :: i < k < |rules| ==> !Picks(rules[k], schema, table)
  }

  // ----- what their folders are called -----------------------------------------------------

  /** The rule would change a schema's or a table's name in a way that cannot be reproduced. */
  predicate Unsupported(r: Rule) {
    && r.ruleType == Transformation && r.target in {SchemaTarget, TableTarget}
    && r.action !in {Some(Rename), Some(ConvertLowercase), Some(ConvertUppercase), Some(AddPrefix),
                     Some(AddSuffix), Some(RemovePrefix), Some(RemoveSuffix)}
  }

  /** `now` is `was` with the letters from `first` to `first + 25` moved by `by`. */
  predicate Folded(was: string, now: string, first: int, shift: int) {
    && |now| == |was|
    && forall k :: 0 <= k < |was| ==>
        now[k] as int == was[k] as int + if first <= was[k] as int < first + 26 then shift else 0
  }

  /** What a transformation makes of a name. */
  predicate Renamed(action: Action, value: Option<string>, was: string, now: string) {
    var text := if value == None then "None" else value.value;
    match action
    case Rename => now == if value == None then was else text
    case ConvertLowercase => Folded(was, now, 65, 32)
    case ConvertUppercase => Folded(was, now, 97, -32)
    case AddPrefix => now == text + was
    case AddSuffix => now == was + text
    case RemovePrefix =>
      if value != None && text <= was then text + now == was else now == was
    case RemoveSuffix =>
      if value != None && EndsWith(was, text) then now + text == was else now == was
    case _ => now == was
  }

  /** One rule on the names so far: a schema's rule looks at the schema alone. */
  predicate Stepped(r: Rule, was: Folder, now: Folder) {
    var mine := r.ruleType == Transformation && (r.schemaPattern == None || Fits(r.schemaPattern.value, was.0));
    if mine && r.target == SchemaTarget && r.action != None then
      Renamed(r.action.value, r.value, was.0, now.0) && now.1 == was.1
    else if mine && r.target == TableTarget && (r.tablePattern == None || Fits(r.tablePattern.value, was.1))
            && r.action != None then
      Renamed(r.action.value, r.value, was.1, now.1) && now.0 == was.0
    else now == was
  }

  predicate Steps(rules: seq<Rule>, names: seq<Folder>) {
    && |names| == |rules| + 1
    && forall i :: 0 <= i < |rules| ==> Stepped(rules[i], names[i], names[i + 1])
  }

  /** The folder of a source table: each rule in its turn, on the names the ones before it made. */
  ghost predicate NamedBy(rules: seq<Rule>, source: Folder, folder: Folder) {
    && (forall i :: 0 <= i < |rules| ==> !Unsupported(rules[i]))
    && exists names :: Steps(rules, names) && names[0] == source && names[|rules|] == folder
  }

  // ----- what a build answers --------------------------------------------------------------

  /** A reported table the build has to load. */
  ghost predicate Wanted(rules: seq<Rule>, st: Stat) {
    Strip(st.schema) != "" && Strip(st.table) != "" && Chosen(rules, Strip(st.schema), Strip(st.table))
  }

  ghost predicate FolderIs(rules: seq<Rule>, st: Stat, folder: Folder) {
    NamedBy(rules, (Strip(st.schema), Strip(st.table)), folder)
  }

  /** Its load is done, and there is a rule that keeps its folder from being worked out. */
  ghost predicate Unclear(rules: seq<Rule>, st: Stat) {
    Wanted(rules, st) && st.completed && exists i :: 0 <= i < |rules| && Unsupported(rules[i])
  }

  /** Its load is not done, or its folder has an empty name. */
  ghost predicate Unloaded(rules: seq<Rule>, st: Stat) {
    Wanted(rules, st) &&
    (!st.completed || exists folder :: FolderIs(rules, st, folder) && (folder.0 == "" || folder.1 == ""))
  }

  /** Its load is done and its folder is in the list. */
  ghost predicate Loaded(rules: seq<Rule>, st: Stat, rows: seq<Folder>) {
    st.completed && exists k :: 0 <= k < |rows| && FolderIs(rules, st, rows[k])
  }

  /** The folder is that of a wanted table and has both names. */
  ghost predicate Needed(rules: seq<Rule>, stats: seq<Stat>, row: Folder) {
    row.0 != "" && row.1 != "" && exists i :: 0 <= i < |stats| && WantedAt(rules, stats[i], row)
  }

  ghost predicate WantedAt(rules: seq<Rule>, st: Stat, row: Folder) { Wanted(rules, st) && FolderIs(rules, st, row) }

  /** The list has the folder of every wanted table, all of them completed, and nothing else or twice. */
  ghost predicate FoldersOf(rules: seq<Rule>, stats: seq<Stat>, rows: seq<Folder>) {
    && (forall i :: 0 <= i < |stats| && Wanted(rules, stats[i]) ==> Loaded(rules, stats[i], rows))
    && (forall k :: 0 <= k < |rows| ==> Needed(rules, stats, rows[k]))
    && (forall j, k :: 0 <= j < k < |rows| ==> rows[j] != rows[k])
  }

  /** Some folder's schema, in lower case. */
  ghost predicate InSchemas(rows: seq<Folder>, x: string) {
    exists k :: 0 <= k < |rows| && Folded(rows[k].0, x, 65, 32)
  }

  ghost predicate SchemasAre(rows: seq<Folder>, schemas: set<string>) {
    forall x :: x in schemas <==> InSchemas(rows, x)
  }

  /** What a build answers: refused for a wanted table whose folder cannot be worked out, then for one
      that is not loaded, then for having none, then for too many schemas; otherwise its folders and
      their schemas. */
  ghost predicate Built(rules: seq<Rule>, stats: seq<Stat>, r: Build) {
    var unclear := exists i :: 0 <= i < |stats| && Unclear(rules, stats[i]);
    var unloaded := exists i :: 0 <= i < |stats| && Unloaded(rules, stats[i]);
    && (r == Err(UnsupportedTransform) <==> unclear)
    && (r == Err(NotLoaded) <==> !unclear && unloaded)
    && (r == Err(NoTables) <==> forall i :: 0 <= i < |stats| ==> !Wanted(rules, stats[i]))
    && (r == Err(TooManySchemas) ==>
          exists rows, schemas ::
            FoldersOf(rules, stats, rows) && SchemasAre(rows, schemas) && |schemas| > MAX_DISTINCT_SCHEMAS)
    && (r.Ok? ==>
          && FoldersOf(rules, stats, r.value.0) && SchemasAre(r.value.0, r.value.1)
          && |r.value.1| <= MAX_DISTINCT_SCHEMAS)
  }

  // ----- what the estimate counts ----------------------------------------------------------

  /** An include rule, and the schema it names, with no white space around it. */
  predicate IncludesSchema(r: Rule, schema: string) {
    && r.ruleType == Selection && r.action in {None, Some(Include)}
    && schema == Strip(if r.schemaPattern == None then "" else r.schemaPattern.value)
  }

  /** The name is that of one schema and no pattern. */
  predicate SpelledOut(schema: string) { schema != "" && '%' !in schema && '*' !in schema && '_' !in schema }

  /** The rule is an include that spells its schema out, and that schema's folder is called `folder`. */
  ghost predicate Contributes(rules: seq<Rule>, r: Rule, folder: string) {
    exists s, t: string :: IncludesSchema(r, s) && SpelledOut(s) && NamedBy(rules, (s, ""), (folder, t))
  }

  /** The rule is an include whose schema is a pattern, or one whose folder cannot be worked out. */
  ghost predicate Opens(rules: seq<Rule>, r: Rule) {
    exists s :: IncludesSchema(r, s) && (SpelledOut(s) ==> exists k :: 0 <= k < |rules| && Unsupported(rules[k]))
  }

  ghost predicate Counts(rules: seq<Rule>, x: string) {
    exists i, f :: 0 <= i < |rules| && Contributes(rules, rules[i], f) && f != "" && Folded(f, x, 65, 32)
  }

  /** The estimate: the lower-cased folder schemas of the include rules that spell theirs out, and
      whether some other include rule may add to them. */
  ghost predicate Estimated(rules: seq<Rule>, schemas: set<string>, open: bool) {
    && (forall x :: x in schemas <==> Counts(rules, x))
    && (open <==> exists i :: 0 <= i < |rules| && Opens(rules, rules[i]))
  }
}
