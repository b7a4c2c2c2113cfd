/**
 The DMS table-mapping rules as preflight and BuildTableList read them (lambdas/resolve_task.py):
 which tables are selected, what their folders are called, and how many schemas that makes.
 */
module TableMappings {
  import opened Util
  import opened Text
  import opened MappingRules

  // ----- patterns --------------------------------------------------------------------------

  /** `*` is a synonym of `%`. */
  function Stars(pattern: string): (r: string)
    ensures |r| == |pattern|
    ensures forall i :: 0 <= i < |pattern| ==> r[i] == if pattern[i] == '*' then '%' else pattern[i]
  {
    seq(|pattern|, i requires 0 <= i < |pattern| => if pattern[i] == '*' then '%' else pattern[i])
  }

  /** `_wildcard_to_regex(pattern).match(name)`. */
  predicate Matches(pattern: string, name: string) { Like(name, Stars(pattern)) }

  predicate MatchesIfGiven(pattern: Option<string>, name: string) {
    pattern.Some? ==> Matches(pattern.value, name)
  }

  predicate Wild(s: string) { s == "" || '%' in s || '*' in s || '_' in s }

  lemma ExactPattern(pattern: string, name: string)
    requires '%' !in pattern && '*' !in pattern && '_' !in pattern
    ensures Matches(pattern, name) <==> name == pattern
  {
    assert Stars(pattern) == pattern;
    LikeExact(name, pattern);
  }

  // ----- selection -------------------------------------------------------------------------

  predicate IsSelection(r: Rule) { r.ruleType.Selection? }

  predicate Includes(r: Rule) { r.action == None || r.action == Some(Include) }

  predicate Selects(r: Rule, schema: string, table: string) {
    IsSelection(r) && MatchesIfGiven(r.schemaPattern, schema) && MatchesIfGiven(r.tablePattern, table)
  }

  /** Later matching rules override earlier ones; a table no rule matches is not selected. */
  predicate Selected(rules: seq<Rule>, schema: string, table: string) {
    rules != [] &&
    (var r := rules[|rules| - 1];
     if Selects(r, schema, table) then Includes(r) else Selected(rules[..|rules| - 1], schema, table))
  }

  /** Some include rule matches and no matching rule comes after it. */
  ghost predicate LastMatchIncludes(rules: seq<Rule>, schema: string, table: string) {
    exists i :: 0 <= i < |rules| && LastMatch(rules, schema, table, i) && Includes(rules[i])
  }

  predicate LastMatch(rules: seq<Rule>, schema: string, table: string, i: nat) {
    i < |rules| && Selects(rules[i], schema, table) && forall k :: i < k < |rules| ==> !Selects(rules[k], schema, table)
  }

  /** So the last match wins. */
  lemma {:induction false} LastMatchWins(rules: seq<Rule>, schema: string, table: string)
    ensures Selected(rules, schema, table) <==> LastMatchIncludes(rules, schema, table)
  {
    if rules != [] {
      var front, last := rules[..|rules| - 1], |rules| - 1;
      LastMatchWins(front, schema, table);
      forall i | 0 <= i < last && !Selects(rules[last], schema, table)
        ensures LastMatch(front, schema, table, i) <==> LastMatch(rules, schema, table, i)
      {
        assert forall k :: 0 <= k < last ==> front[k] == rules[k];
      }
      assert Selects(rules[last], schema, table) ==> LastMatch(rules, schema, table, last);
    }
  }

  // ----- transformations -------------------------------------------------------------------

  function AfterPrefix(name: string, value: string): string {
    if value != "" && value <= name then name[|value|..] else name
  }

  function BeforeSuffix(name: string, value: string): string {
    if value != "" && EndsWith(name, value) then name[..|name| - |value|] else name
  }

  function AsText(value: Option<string>): string { if value.Some? then value.value else "None" }

  /** The transformations whose effect on a name can be reproduced. */
  predicate Reproducible(action: Option<Action>) {
    action.Some? && !action.value.Include? && !action.value.Exclude? && !action.value.OtherAction?
  }

  /** `_apply_one_transform`. */
  function ApplyOne(action: Action, value: Option<string>, name: string): string {
    match action
    case Rename => if value.Some? then value.value else name
    case ConvertLowercase => Lower(name)
    case ConvertUppercase => Upper(name)
    case AddPrefix => AsText(value) + name
    case AddSuffix => name + AsText(value)
    case RemovePrefix => if value.Some? then AfterPrefix(name, value.value) else name
    case RemoveSuffix => if value.Some? then BeforeSuffix(name, value.value) else name
    case _ => name
  }

  predicate NamesTransform(r: Rule) { r.ruleType.Transformation? && !r.target.OtherTarget? }

  /** One rule of `_transform_names` on the names so far. */
  function Transform(r: Rule, schema: string, table: string): Result<(string, string), MappingError> {
    if !NamesTransform(r) then Ok((schema, table))
    else if !Reproducible(r.action) then Err(UnsupportedTransform)
    else if !MatchesIfGiven(r.schemaPattern, schema) then Ok((schema, table))
    else if r.target.TableTarget? then
      if MatchesIfGiven(r.tablePattern, table) then Ok((schema, ApplyOne(r.action.value, r.value, table)))
      else Ok((schema, table))
    else Ok((ApplyOne(r.action.value, r.value, schema), table))
  }

  function FolderNames(rules: seq<Rule>, schema: string, table: string): Result<(string, string), MappingError> {
    if rules == [] then Ok((schema, table))
    else
      match FolderNames(rules[..|rules| - 1], schema, table)
      case Err(e) => Err(e)
      case Ok(n) => Transform(rules[|rules| - 1], n.0, n.1)
  }

  lemma {:induction false} FirstErrorStays(rules: seq<Rule>, i: nat, schema: string, table: string)
    requires i <= |rules| && FolderNames(rules[..i], schema, table).Err?
    ensures FolderNames(rules, schema, table) == Err(FolderNames(rules[..i], schema, table).error)
  {
    if i < |rules| {
      assert rules[..|rules| - 1][..i] == rules[..i];
      FirstErrorStays(rules[..|rules| - 1], i, schema, table);
    } else {
      assert rules[..i] == rules;
    }
  }

  /** The folder schema, and whether the rules can be reproduced at all, never depend on the table
      name. */
  lemma {:induction false} SchemaIgnoresTheTable(rules: seq<Rule>, schema: string, t1: string, t2: string)
    ensures FolderNames(rules, schema, t1).Ok? <==> FolderNames(rules, schema, t2).Ok?
    ensures FolderNames(rules, schema, t1).Ok? ==>
              FolderNames(rules, schema, t1).value.0 == FolderNames(rules, schema, t2).value.0
  {
    if rules != [] {
      SchemaIgnoresTheTable(rules[..|rules| - 1], schema, t1, t2);
    }
  }

  /** `_distinct_schema_name`. */
  function SchemaName(rules: seq<Rule>, schema: string, table: string): Result<string, MappingError> {
    match FolderNames(rules, schema, table)
    case Err(e) => Err(e)
    case Ok(n) => Ok(Lower(n.0))
  }

  // ----- what the rules mean ---------------------------------------------------------------

  lemma {:induction false} FitsIsMatches(pattern: string, name: string)
    ensures Fits(pattern, name) <==> Matches(pattern, name)
    decreases |pattern|
  {
    if pattern != "" {
      var p := Stars(pattern);
      assert p[1..] == Stars(pattern[1..]);
      if p[0] == '%' {
        LikeRun(name, p);
        forall k | 0 <= k <= |name| ensures Fits(pattern[1..], name[k..]) <==> Like(name[k..], p[1..]) {
          FitsIsMatches(pattern[1..], name[k..]);
        }
      } else if name != "" {
        FitsIsMatches(pattern[1..], name[1..]);
      }
    }
  }

  lemma FitsIfGiven(pattern: Option<string>, name: string)
    ensures pattern == None || Fits(pattern.value, name) <==> MatchesIfGiven(pattern, name)
  {
    if pattern.Some? {
      FitsIsMatches(pattern.value, name);
    }
  }

  lemma ChosenIsSelected(rules: seq<Rule>, schema: string, table: string)
    ensures Chosen(rules, schema, table) <==> Selected(rules, schema, table)
  {
    LastMatchWins(rules, schema, table);
    forall i | 0 <= i < |rules| ensures Picks(rules[i], schema, table) <==> Selects(rules[i], schema, table) {
      FitsIfGiven(rules[i].schemaPattern, schema);
      FitsIfGiven(rules[i].tablePattern, table);
    }
    if Selected(rules, schema, table) {
      var i :| 0 <= i < |rules| && LastMatch(rules, schema, table, i) && Includes(rules[i]);
      assert Picks(rules[i], schema, table) && rules[i].action in {None, Some(Include)};
    }
    if Chosen(rules, schema, table) {
      var i :| 0 <= i < |rules| && Picks(rules[i], schema, table) && rules[i].action in {None, Some(Include)} &&
               forall k :: i < k < |rules| ==> !Picks(rules[k], schema, table);
      assert LastMatch(rules, schema, table, i);
    }
  }

  lemma LowerIsFolded(s: string, x: string)
    ensures Folded(s, x, 65, 32) <==> x == Lower(s)
  {
    if Folded(s, x, 65, 32) {
      assert forall k :: 0 <= k < |s| ==> x[k] == LowerChar(s[k]);
    }
  }

  lemma UpperIsFolded(s: string, x: string)
    ensures Folded(s, x, 97, -32) <==> x == Upper(s)
  {
    if Folded(s, x, 97, -32) {
      assert forall k :: 0 <= k < |s| ==> x[k] == UpperChar(s[k]);
    }
  }

  lemma RenamedIsApplied(action: Action, value: Option<string>, name: string, r: string)
    ensures Renamed(action, value, name, r) <==> r == ApplyOne(action, value, name)
  {
    LowerIsFolded(name, r);
    UpperIsFolded(name, r);
    if value.Some? {
      PrefixIsCut(name, value.value, r);
      SuffixIsCut(name, value.value, r);
    }
  }

  lemma PrefixIsCut(name: string, value: string, r: string)
    ensures (if value <= name then value + r == name else r == name) <==> r == AfterPrefix(name, value)
  {
    if value <= name {
      assert value + name[|value|..] == name;
      assert (value + r)[|value|..] == r;
    }
  }

  lemma SuffixIsCut(name: string, value: string, r: string)
    ensures (if EndsWith(name, value) then r + value == name else r == name) <==> r == BeforeSuffix(name, value)
  {
    if EndsWith(name, value) {
      assert name[..|name| - |value|] + value == name;
      assert (r + value)[..|r|] == r;
    }
  }

  lemma SteppedIsTransformed(r: Rule, name: Folder, n: Folder)
    ensures Transform(r, name.0, name.1) == Err(UnsupportedTransform) <==> Unsupported(r)
    ensures Transform(r, name.0, name.1) == Ok(n) <==> !Unsupported(r) && Stepped(r, name, n)
  {
    FitsIfGiven(r.schemaPattern, name.0);
    FitsIfGiven(r.tablePattern, name.1);
    if r.action.Some? {
      RenamedIsApplied(r.action.value, r.value, name.0, n.0);
      RenamedIsApplied(r.action.value, r.value, name.1, n.1);
    }
  }

  lemma {:induction false} RefusedForARule(rules: seq<Rule>, schema: string, table: string)
    ensures FolderNames(rules, schema, table).Err? <==> exists i :: 0 <= i < |rules| && Unsupported(rules[i])
    ensures FolderNames(rules, schema, table).Err? ==> FolderNames(rules, schema, table).error == UnsupportedTransform
  {
    if rules != [] {
      var front, last := rules[..|rules| - 1], rules[|rules| - 1];
      RefusedForARule(front, schema, table);
      assert forall i :: 0 <= i < |front| ==> front[i] == rules[i];
      if FolderNames(front, schema, table).Ok? {
        SteppedIsTransformed(last, FolderNames(front, schema, table).value, (schema, table));
      }
    }
  }

  lemma {:induction false} StepsReach(rules: seq<Rule>, names: seq<Folder>)
    requires Steps(rules, names) && forall i :: 0 <= i < |rules| ==> !Unsupported(rules[i])
    ensures FolderNames(rules, names[0].0, names[0].1) == Ok(names[|rules|])
  {
    if rules != [] {
      var n := |rules| - 1;
      StepsReach(rules[..n], names[..n + 1]);
      SteppedIsTransformed(rules[n], names[n], names[n + 1]);
    }
  }

  lemma {:induction false} StepsTo(rules: seq<Rule>, schema: string, table: string) returns (names: seq<Folder>)
    requires FolderNames(rules, schema, table).Ok?
    ensures Steps(rules, names) && names[0] == (schema, table)
    ensures names[|rules|] == FolderNames(rules, schema, table).value
  {
    if rules == [] {
      names := [(schema, table)];
    } else {
      var n := |rules| - 1;
      names := StepsTo(rules[..n], schema, table);
      SteppedIsTransformed(rules[n], names[n], FolderNames(rules, schema, table).value);
      names := names + [FolderNames(rules, schema, table).value];
    }
  }

  /** The names the pass computes are those the rules give, one step after the other. */
  lemma NamedIsComputed(rules: seq<Rule>, schema: string, table: string, folder: Folder)
    ensures FolderNames(rules, schema, table) == Ok(folder) <==> NamedBy(rules, (schema, table), folder)
  {
    RefusedForARule(rules, schema, table);
    if NamedBy(rules, (schema, table), folder) {
      var names :| Steps(rules, names) && names[0] == (schema, table) && names[|rules|] == folder;
      StepsReach(rules, names);
    }
    if FolderNames(rules, schema, table) == Ok(folder) {
      var names := StepsTo(rules, schema, table);
    }
  }

  /** `_selection_includes`: one pass in rule order. */
  method SelectionIncludes(rules: seq<Rule>, schema: string, table: string) returns (selected: bool)
    ensures selected <==> Selected(rules, schema, table)
    ensures selected <==> Chosen(rules, schema, table)
  {
    selected := false;
    for i := 0 to |rules|
      invariant selected <==> Selected(rules[..i], schema, table)
    {
      assert rules[..i + 1][..i] == rules[..i];
      if Selects(rules[i], schema, table) {
        selected := Includes(rules[i]);
      }
    }
    assert rules[..|rules|] == rules;
    ChosenIsSelected(rules, schema, table);
  }

  /** `_transform_names`: the rules in order, each on the names the rules before it made. */
  method TransformNames(rules: seq<Rule>, schema: string, table: string)
    returns (r: Result<(string, string), MappingError>)
    ensures r == FolderNames(rules, schema, table)
    ensures r.Err? <==> exists i :: 0 <= i < |rules| && Unsupported(rules[i])
    ensures r.Ok? ==> NamedBy(rules, (schema, table), r.value)
  {
    var s, t := schema, table;
    for i := 0 to |rules|
      invariant FolderNames(rules[..i], schema, table) == Ok((s, t))
    {
      assert rules[..i + 1][..i] == rules[..i];
      match Transform(rules[i], s, t) {
        case Err(e) =>
          FirstErrorStays(rules, i + 1, schema, table);
          RefusedForARule(rules, schema, table);
          return Err(e);
        case Ok(n) =>
          s, t := n.0, n.1;
      }
    }
    assert rules[..|rules|] == rules;
    r := Ok((s, t));
    NamedIsComputed(rules, schema, table, (s, t));
  }

  // ----- preflight's estimate --------------------------------------------------------------

  /** What one rule adds to the estimate: nothing, an unknown, or a schema. */
  datatype Share = Nothing | Unknown | Known(schema: string)

  function ShareOf(rules: seq<Rule>, r: Rule): Share {
    if !IsSelection(r) || !Includes(r) then Nothing
    else
      var s := Strip(if r.schemaPattern.Some? then r.schemaPattern.value else "");
      if Wild(s) then Unknown else Counted(SchemaName(rules, s, ""))
  }

  function Counted(name: Result<string, MappingError>): Share {
    match name
    case Err(_) => Unknown
    case Ok(s) => if s == "" then Nothing else Known(s)
  }

  /** The shares of the first `n` rules. */
  function SharesTo(rules: seq<Rule>, n: nat): (shares: seq<Share>)
    requires n <= |rules|
    ensures |shares| == n
  {
    if n == 0 then [] else SharesTo(rules, n - 1) + [ShareOf(rules, rules[n - 1])]
  }

  function Shares(rules: seq<Rule>): seq<Share> { SharesTo(rules, |rules|) }

  lemma {:induction false} ShareAt(rules: seq<Rule>, n: nat, i: nat)
    requires i < n <= |rules|
    ensures SharesTo(rules, n)[i] == ShareOf(rules, rules[i])
  {
    if i < n - 1 {
      ShareAt(rules, n - 1, i);
    }
  }

  /** The schemas the estimate counts, and whether it knows them all. */
  ghost predicate EstimateOk(shares: seq<Share>, schemas: set<string>, wildcard: bool) {
    && (forall x :: x in schemas <==> Known(x) in shares)
    && (wildcard <==> Unknown in shares)
  }

  lemma EstimateNext(shares: seq<Share>, schemas: set<string>, wildcard: bool, share: Share)
    requires EstimateOk(shares, schemas, wildcard)
    ensures EstimateOk(shares + [share],
                       if share.Known? then schemas + {share.schema} else schemas, wildcard || share.Unknown?)
  {
    assert forall x :: x in shares + [share] <==> x in shares || x == share;
  }

  /** What one rule adds, said of the rule. */
  lemma ShareMeans(rules: seq<Rule>, r: Rule, x: string)
    ensures ShareOf(rules, r) == Unknown <==> Opens(rules, r)
    ensures ShareOf(rules, r) == Known(x) <==> exists f :: Contributes(rules, r, f) && f != "" && Folded(f, x, 65, 32)
  {
    var s := Strip(if r.schemaPattern.Some? then r.schemaPattern.value else "");
    RefusedForARule(rules, s, "");
    assert IncludesSchema(r, s) <==> IsSelection(r) && Includes(r);
    if FolderNames(rules, s, "").Ok? {
      var f := FolderNames(rules, s, "").value.0;
      LowerIsFolded(f, x);
      assert |Lower(f)| == |f|;
      ContributesOneFolder(rules, r, s, f);
    }
    if exists f :: Contributes(rules, r, f) && f != "" && Folded(f, x, 65, 32) {
      var f :| Contributes(rules, r, f) && f != "" && Folded(f, x, 65, 32);
      ContributesOneFolder(rules, r, s, f);
    }
  }

  lemma ContributesOneFolder(rules: seq<Rule>, r: Rule, s: string, f: string)
    requires s == Strip(if r.schemaPattern.Some? then r.schemaPattern.value else "")
    ensures Contributes(rules, r, f) <==>
            && IncludesSchema(r, s) && SpelledOut(s)
            && FolderNames(rules, s, "").Ok? && FolderNames(rules, s, "").value.0 == f
  {
    if Contributes(rules, r, f) {
      var t: string :| NamedBy(rules, (s, ""), (f, t));
      NamedIsComputed(rules, s, "", (f, t));
    }
    if FolderNames(rules, s, "").Ok? {
      NamedIsComputed(rules, s, "", FolderNames(rules, s, "").value);
    }
  }

  lemma EstimateIsEstimated(rules: seq<Rule>, schemas: set<string>, wildcard: bool)
    requires EstimateOk(Shares(rules), schemas, wildcard)
    ensures Estimated(rules, schemas, wildcard)
  {
    forall i | 0 <= i < |rules| ensures Shares(rules)[i] == ShareOf(rules, rules[i]) {
      ShareAt(rules, |rules|, i);
    }
    forall x ensures x in schemas <==> Counts(rules, x) {
      ShareIsCounted(rules, x);
    }
    forall i | 0 <= i < |rules| ensures Shares(rules)[i] == Unknown <==> Opens(rules, rules[i]) {
      ShareMeans(rules, rules[i], "");
    }
  }

  lemma ShareIsCounted(rules: seq<Rule>, x: string)
    ensures Known(x) in Shares(rules) <==> Counts(rules, x)
  {
    forall i | 0 <= i < |rules| ensures Shares(rules)[i] == ShareOf(rules, rules[i]) {
      ShareAt(rules, |rules|, i);
    }
    if Known(x) in Shares(rules) {
      var i :| 0 <= i < |rules| && Shares(rules)[i] == Known(x);
      ShareMeans(rules, rules[i], x);
    }
    if Counts(rules, x) {
      var i, f :| 0 <= i < |rules| && Contributes(rules, rules[i], f) && f != "" && Folded(f, x, 65, 32);
      ShareMeans(rules, rules[i], x);
      assert Shares(rules)[i] == Known(x);
    }
  }

  /** `_estimate_selection_schemas`. */
  method EstimateSchemas(rules: seq<Rule>) returns (schemas: set<string>, wildcard: bool)
    ensures EstimateOk(Shares(rules), schemas, wildcard)
    ensures Estimated(rules, schemas, wildcard)
  {
    schemas, wildcard := {}, false;
    for i := 0 to |rules|
      invariant EstimateOk(SharesTo(rules, i), schemas, wildcard)
    {
      var share := ShareOf(rules, rules[i]);
      EstimateNext(SharesTo(rules, i), schemas, wildcard, share);
      match share {
        case Nothing =>
        case Unknown => wildcard := true;
        case Known(x) => schemas := schemas + {x};
      }
    }
    EstimateIsEstimated(rules, schemas, wildcard);
  }

  // ----- BuildTableList --------------------------------------------------------------------

  /** What becomes of a reported table: left out (nameless, or not selected), not loaded (or left
      without a name), refused for a rule that cannot be reproduced, or in the list. */
  datatype Fate = LeftOut | NotDone | Refused(error: MappingError) | Listed(folder: Folder)

  function FateOf(rules: seq<Rule>, st: Stat): Fate {
    var schema, table := Strip(st.schema), Strip(st.table);
    if schema == "" || table == "" || !Selected(rules, schema, table) then LeftOut
    else if !st.completed then NotDone
    else
      match FolderNames(rules, schema, table)
      case Err(e) => Refused(e)
      case Ok(n) => if n.0 == "" || n.1 == "" then NotDone else Listed(n)
  }

  /** The fates of the first `n` reported tables. */
  function FatesTo(rules: seq<Rule>, stats: seq<Stat>, n: nat): (fates: seq<Fate>)
    requires n <= |stats|
    ensures |fates| == n
  {
    if n == 0 then [] else FatesTo(rules, stats, n - 1) + [FateOf(rules, stats[n - 1])]
  }

  function Fates(rules: seq<Rule>, stats: seq<Stat>): seq<Fate> { FatesTo(rules, stats, |stats|) }

  lemma {:induction false} FateAt(rules: seq<Rule>, stats: seq<Stat>, n: nat, i: nat)
    requires i < n <= |stats|
    ensures FatesTo(rules, stats, n)[i] == FateOf(rules, stats[i])
  {
    if i < n - 1 {
      FateAt(rules, stats, n - 1, i);
    }
  }

  predicate NoRepeats(rows: seq<Folder>) { forall j, k :: 0 <= j < k < |rows| ==> rows[j] != rows[k] }

  ghost predicate RowsOk(fates: seq<Fate>, rows: seq<Folder>) {
    && (forall f :: Listed(f) in fates <==> f in rows)
    && NoRepeats(rows)
  }

  function SchemasOf(rows: seq<Folder>): set<string> { set k | 0 <= k < |rows| :: Lower(rows[k].0) }

  /** What a build that passes promises: every selected table is completed and has a folder, the
      rows are exactly those folders, once each, and the schemas are theirs, lower-cased. */
  ghost predicate BuildOk(fates: seq<Fate>, rows: seq<Folder>, schemas: set<string>) {
    && NotDone !in fates && (forall e :: Refused(e) !in fates)
    && RowsOk(fates, rows) && schemas == SchemasOf(rows)
  }

  /** What the loop knows of the statistics so far. */
  ghost predicate SoFar(fates: seq<Fate>, rows: seq<Folder>, errored: bool) {
    RowsOk(fates, rows) && (errored <==> NotDone in fates) && forall e :: Refused(e) !in fates
  }

  lemma FateNext(fates: seq<Fate>, rows: seq<Folder>, errored: bool, fate: Fate)
    requires SoFar(fates, rows, errored) && !fate.Refused?
    ensures SoFar(fates + [fate], if fate.Listed? && fate.folder !in rows then rows + [fate.folder] else rows,
                  errored || fate.NotDone?)
  {
    assert forall f :: f in fates + [fate] <==> f in fates || f == fate;
  }

  /** What the build answers: the list within the cap, or why there is none. */
  ghost predicate Answer(fates: seq<Fate>, r: Build) {
    match r
    case Ok(list) => BuildOk(fates, list.0, list.1) && list.0 != [] && |list.1| <= MAX_DISTINCT_SCHEMAS
    case Err(UnsupportedTransform) => Refused(UnsupportedTransform) in fates
    case Err(NotLoaded) => NotDone in fates && forall e :: Refused(e) !in fates
    case Err(NoTables) => BuildOk(fates, [], {})
    case Err(TooManySchemas) =>
      exists rows :: BuildOk(fates, rows, SchemasOf(rows)) && |SchemasOf(rows)| > MAX_DISTINCT_SCHEMAS
  }

  /** The fate of one reported table, as the loop of the build works it out. */
  method Decide(rules: seq<Rule>, st: Stat) returns (fate: Fate)
    ensures fate == FateOf(rules, st)
    ensures fate.Refused? ==> fate.error == UnsupportedTransform
  {
    var schema, table := Strip(st.schema), Strip(st.table);
    if schema == "" || table == "" {
      return LeftOut;
    }
    var selected := SelectionIncludes(rules, schema, table);
    if !selected {
      return LeftOut;
    }
    if !st.completed {
      return NotDone;
    }
    var names := TransformNames(rules, schema, table);
    match names {
      case Err(e) =>
        RefusedForARule(rules, schema, table);
        return Refused(e);
      case Ok(n) => return if n.0 == "" || n.1 == "" then NotDone else Listed(n);
    }
  }

  /** A refusal anywhere in the list stays in it. */
  lemma {:induction false} FateStays(rules: seq<Rule>, stats: seq<Stat>, n: nat)
    requires n < |stats|
    ensures FateOf(rules, stats[n]) in Fates(rules, stats)
  {
    FateAt(rules, stats, |stats|, n);
  }

  /** One reported table of the loop. */
  method Visit(rules: seq<Rule>, stats: seq<Stat>, n: nat, rows: seq<Folder>, errored: bool)
    returns (refused: bool, rows': seq<Folder>, errored': bool)
    requires n < |stats| && SoFar(FatesTo(rules, stats, n), rows, errored)
    ensures refused ==> Refused(UnsupportedTransform) in Fates(rules, stats)
    ensures !refused ==> SoFar(FatesTo(rules, stats, n + 1), rows', errored')
  {
    refused, rows', errored' := false, rows, errored;
    var fate := Decide(rules, stats[n]);
    if fate.Refused? {
      FateStays(rules, stats, n);
      return true, rows, errored;
    }
    FateNext(FatesTo(rules, stats, n), rows, errored, fate);
    if fate.NotDone? {
      errored' := true;
    } else if fate.Listed? && fate.folder !in rows {
      rows' := rows + [fate.folder];
    }
  }

  /** The loop over the statistics; it stops at a rule that cannot be reproduced. */
  method Scan(rules: seq<Rule>, stats: seq<Stat>) returns (refused: bool, rows: seq<Folder>, errored: bool)
    ensures if refused then Refused(UnsupportedTransform) in Fates(rules, stats)
            else SoFar(Fates(rules, stats), rows, errored)
  {
    refused, rows, errored := false, [], false;
    for n := 0 to |stats|
      invariant SoFar(FatesTo(rules, stats, n), rows, errored)
    {
      refused, rows, errored := Visit(rules, stats, n, rows, errored);
      if refused {
        return;
      }
    }
    refused := false;
  }

  /** The checks behind the loop. */
  method Conclude(ghost fates: seq<Fate>, rows: seq<Folder>, errored: bool)
    returns (r: Build)
    requires SoFar(fates, rows, errored)
    ensures Answer(fates, r)
  {
    if errored {
      return Err(NotLoaded);
    }
    if rows == [] {
      assert SchemasOf([]) == {};
      return Err(NoTables);
    }
    var schemas := SchemasOf(rows);
    assert BuildOk(fates, rows, schemas);
    if |schemas| > MAX_DISTINCT_SCHEMAS {
      return Err(TooManySchemas);
    }
    r := Ok((rows, schemas));
  }

  // ----- what the fates say of the rules and the statistics --------------------------------

  lemma FateMeans(rules: seq<Rule>, st: Stat)
    ensures FateOf(rules, st).LeftOut? <==> !Wanted(rules, st)
    ensures FateOf(rules, st).Refused? <==> Unclear(rules, st)
    ensures FateOf(rules, st).NotDone? <==> Unloaded(rules, st)
    ensures forall f :: FateOf(rules, st) == Listed(f) <==>
              WantedAt(rules, st, f) && st.completed && f.0 != "" && f.1 != ""
  {
    var schema, table := Strip(st.schema), Strip(st.table);
    ChosenIsSelected(rules, schema, table);
    RefusedForARule(rules, schema, table);
    forall f ensures FolderNames(rules, schema, table) == Ok(f) <==> FolderIs(rules, st, f) {
      NamedIsComputed(rules, schema, table, f);
    }
  }

  lemma FateIn(rules: seq<Rule>, stats: seq<Stat>, fate: Fate) returns (i: nat)
    requires fate in Fates(rules, stats)
    ensures i < |stats| && FateOf(rules, stats[i]) == fate
  {
    i :| 0 <= i < |Fates(rules, stats)| && Fates(rules, stats)[i] == fate;
    FateAt(rules, stats, |stats|, i);
  }

  lemma UnclearIsRefused(rules: seq<Rule>, stats: seq<Stat>)
    ensures (exists i :: 0 <= i < |stats| && Unclear(rules, stats[i])) <==>
            Refused(UnsupportedTransform) in Fates(rules, stats)
    ensures Refused(UnsupportedTransform) in Fates(rules, stats) <==> exists e :: Refused(e) in Fates(rules, stats)
  {
    if exists e :: Refused(e) in Fates(rules, stats) {
      var e :| Refused(e) in Fates(rules, stats);
      var i := FateIn(rules, stats, Refused(e));
      FateMeans(rules, stats[i]);
    }
    if exists i :: 0 <= i < |stats| && Unclear(rules, stats[i]) {
      var i :| 0 <= i < |stats| && Unclear(rules, stats[i]);
      FateMeans(rules, stats[i]);
      RefusedForARule(rules, Strip(stats[i].schema), Strip(stats[i].table));
      FateStays(rules, stats, i);
    }
  }

  lemma UnloadedIsNotDone(rules: seq<Rule>, stats: seq<Stat>)
    ensures (exists i :: 0 <= i < |stats| && Unloaded(rules, stats[i])) <==> NotDone in Fates(rules, stats)
  {
    if NotDone in Fates(rules, stats) {
      var i := FateIn(rules, stats, NotDone);
      FateMeans(rules, stats[i]);
    }
    if exists i :: 0 <= i < |stats| && Unloaded(rules, stats[i]) {
      var i :| 0 <= i < |stats| && Unloaded(rules, stats[i]);
      FateMeans(rules, stats[i]);
      FateStays(rules, stats, i);
    }
  }

  lemma RowsAreFolders(rules: seq<Rule>, stats: seq<Stat>, rows: seq<Folder>, schemas: set<string>)
    requires BuildOk(Fates(rules, stats), rows, schemas)
    ensures FoldersOf(rules, stats, rows)
  {
    forall i | 0 <= i < |stats| && Wanted(rules, stats[i]) ensures Loaded(rules, stats[i], rows) {
      FateMeans(rules, stats[i]);
      FateStays(rules, stats, i);
      var k :| 0 <= k < |rows| && rows[k] == FateOf(rules, stats[i]).folder;
    }
    forall k | 0 <= k < |rows| ensures Needed(rules, stats, rows[k]) {
      assert rows[k] in rows;
      var i := FateIn(rules, stats, Listed(rows[k]));
      FateMeans(rules, stats[i]);
    }
  }

  lemma SchemasAreFolded(rows: seq<Folder>)
    ensures SchemasAre(rows, SchemasOf(rows))
  {
    forall x ensures x in SchemasOf(rows) <==> InSchemas(rows, x) {
      forall k | 0 <= k < |rows| ensures Folded(rows[k].0, x, 65, 32) <==> x == Lower(rows[k].0) {
        LowerIsFolded(rows[k].0, x);
      }
    }
  }

  lemma NoneWanted(rules: seq<Rule>, stats: seq<Stat>)
    requires BuildOk(Fates(rules, stats), [], {})
    ensures forall i :: 0 <= i < |stats| ==> !Wanted(rules, stats[i])
  {
    forall i | 0 <= i < |stats| ensures !Wanted(rules, stats[i]) {
      FateMeans(rules, stats[i]);
      FateStays(rules, stats, i);
    }
  }

  lemma SomeWanted(rules: seq<Rule>, stats: seq<Stat>, fate: Fate)
    requires fate in Fates(rules, stats) && !fate.LeftOut?
    ensures exists i :: 0 <= i < |stats| && Wanted(rules, stats[i])
  {
    var i := FateIn(rules, stats, fate);
    FateMeans(rules, stats[i]);
  }

  lemma AnswerIsBuilt(rules: seq<Rule>, stats: seq<Stat>, r: Build)
    requires Answer(Fates(rules, stats), r)
    ensures Built(rules, stats, r)
  {
    var fates := Fates(rules, stats);
    UnclearIsRefused(rules, stats);
    UnloadedIsNotDone(rules, stats);
    if r == Err(UnsupportedTransform) {
      SomeWanted(rules, stats, Refused(UnsupportedTransform));
    } else if r == Err(NotLoaded) {
      SomeWanted(rules, stats, NotDone);
    } else if r == Err(NoTables) {
      NoneWanted(rules, stats);
    } else if r == Err(TooManySchemas) {
      var rows :| BuildOk(fates, rows, SchemasOf(rows)) && |SchemasOf(rows)| > MAX_DISTINCT_SCHEMAS;
      assert rows == [] ==> SchemasOf(rows) == {};
      RowsBuilt(rules, stats, rows, SchemasOf(rows));
    } else {
      RowsBuilt(rules, stats, r.value.0, r.value.1);
    }
  }

  lemma RowsBuilt(rules: seq<Rule>, stats: seq<Stat>, rows: seq<Folder>, schemas: set<string>)
    requires BuildOk(Fates(rules, stats), rows, schemas) && rows != []
    ensures FoldersOf(rules, stats, rows) && SchemasAre(rows, schemas)
    ensures exists i :: 0 <= i < |stats| && Wanted(rules, stats[i])
  {
    RowsAreFolders(rules, stats, rows, schemas);
    SchemasAreFolded(rows);
    assert rows[0] in rows;
    SomeWanted(rules, stats, Listed(rows[0]));
  }

  /** `handler_build_table_list`, from the rules and the statistics. */
  method BuildTableList(rules: seq<Rule>, stats: seq<Stat>)
    returns (r: Build)
    ensures Answer(Fates(rules, stats), r)
    ensures Built(rules, stats, r)
  {
    var refused, rows, errored := Scan(rules, stats);
    if refused {
      r := Err(UnsupportedTransform);
    } else {
      r := Conclude(Fates(rules, stats), rows, errored);
    }
    AnswerIsBuilt(rules, stats, r);
  }

  // ----- the estimate covers the build -----------------------------------------------------

  /** A listed table's schema is counted by the include rule that selected it, unless that rule is
      one the estimate calls unknown. */
  lemma SelectedSchemaIsCounted(rules: seq<Rule>, st: Stat)
    requires FateOf(rules, st).Listed? && Unknown !in Shares(rules)
    ensures Known(Lower(FateOf(rules, st).folder.0)) in Shares(rules)
  {
    var schema, table := Strip(st.schema), Strip(st.table);
    LastMatchWins(rules, schema, table);
    var i :| 0 <= i < |rules| && LastMatch(rules, schema, table, i) && Includes(rules[i]);
    ShareAt(rules, |rules|, i);
    SelectorCounts(rules, rules[i], st.schema, table);
  }

  /** What an include rule that selects a table adds to the estimate. */
  lemma SelectorCounts(rules: seq<Rule>, r: Rule, raw: string, table: string)
    requires IsSelection(r) && Includes(r) && MatchesIfGiven(r.schemaPattern, Strip(raw))
    requires ShareOf(rules, r) != Unknown
    requires FolderNames(rules, Strip(raw), table).Ok? && FolderNames(rules, Strip(raw), table).value.0 != ""
    ensures ShareOf(rules, r) == Known(Lower(FolderNames(rules, Strip(raw), table).value.0))
  {
    PatternIsTheSchema(rules, r, raw);
    SchemaIgnoresTheTable(rules, Strip(raw), table, "");
  }

  lemma PatternIsTheSchema(rules: seq<Rule>, r: Rule, raw: string)
    requires IsSelection(r) && Includes(r) && MatchesIfGiven(r.schemaPattern, Strip(raw))
    requires ShareOf(rules, r) != Unknown
    ensures r.schemaPattern.Some? && Strip(r.schemaPattern.value) == Strip(raw)
  {
    assert Strip("") == "";
    var p := r.schemaPattern.value;
    assert !Wild(Strip(p));
    PatternChars(p);
    ExactPattern(p, Strip(raw));
    StripTwice(raw);
  }

  lemma StripTwice(s: string)
    ensures Strip(Strip(s)) == Strip(s)
  {
    StripMeans(s);
    StripOfStripped(Strip(s));
  }

  /** Stripping takes away white space only. */
  lemma PatternChars(p: string)
    requires !Wild(Strip(p))
    ensures '%' !in p && '*' !in p && '_' !in p
  {
    StripKeeps(p, '%');
    StripKeeps(p, '*');
    StripKeeps(p, '_');
  }

  /** With no wildcard in an include rule's schema, the schemas of a build are among the estimated
      ones, so passing the cap before the start means passing it in the build. */
  lemma EstimateCoversTheBuild(rules: seq<Rule>, stats: seq<Stat>, rows: seq<Folder>, schemas: set<string>,
                               estimate: set<string>)
    requires BuildOk(Fates(rules, stats), rows, schemas) && EstimateOk(Shares(rules), estimate, false)
    ensures schemas <= estimate
    ensures |estimate| <= MAX_DISTINCT_SCHEMAS ==> |schemas| <= MAX_DISTINCT_SCHEMAS
  {
    var fates := Fates(rules, stats);
    forall x | x in schemas ensures x in estimate {
      var k :| 0 <= k < |rows| && x == Lower(rows[k].0);
      assert Listed(rows[k]) in fates;
      var i: nat :| i < |fates| && fates[i] == Listed(rows[k]);
      FateAt(rules, stats, |stats|, i);
      SelectedSchemaIsCounted(rules, stats[i]);
    }
    SubsetSize(schemas, estimate);
  }

  lemma {:induction false} SubsetSize(a: set<string>, b: set<string>)
    requires a <= b
    ensures |a| <= |b|
    decreases |a|
  {
    if a != {} {
      var x :| x in a;
      SubsetSize(a - {x}, b - {x});
    }
  }

  lemma ShareOfInclude(rules: seq<Rule>, r: Rule, schema: string)
    requires IsSelection(r) && r.action == Some(Include) && r.schemaPattern == Some(schema) && !Wild(schema)
    requires Stripped(schema)
    requires FolderNames(rules, schema, "") == Ok((schema, ""))
    ensures ShareOf(rules, r) == Known(Lower(schema))
  {
    StripOfStripped(schema);
    assert |Lower(schema)| == |schema|;
    assert SchemaName(rules, schema, "") == Ok(Lower(schema));
  }

  lemma {:induction false} NoTransforms(rules: seq<Rule>, schema: string, table: string)
    requires forall i :: 0 <= i < |rules| ==> rules[i].ruleType == Selection
    ensures FolderNames(rules, schema, table) == Ok((schema, table))
  {
    if rules != [] {
      NoTransforms(rules[..|rules| - 1], schema, table);
    }
  }
}
