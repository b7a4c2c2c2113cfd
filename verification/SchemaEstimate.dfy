/**
 Preflight's schema estimate as a bound on what a build can load (`_estimate_selection_schemas` of
 lambdas/resolve_task.py, the cap check of lambdas/preflight_tasks.py).
 */
module SchemaEstimate {
  import opened Util
  import opened Names
  import opened Text
  import opened MappingRules
  import opened TableMappings

  // ----- when the estimate is exact --------------------------------------------------------

  /** A table of the source that the rules select, by an include rule that is its last match, and
      whose folder has this schema. */
  ghost predicate Loads(rules: seq<Rule>, schema: string, table: string, x: string) {
    && schema != "" && table != "" && Strip(schema) == schema && Strip(table) == table
    && LastMatchIncludes(rules, schema, table)
    && FolderNames(rules, schema, table).Ok?
    && var n := FolderNames(rules, schema, table).value; n.0 != "" && n.1 != "" && Lower(n.0) == x
  }

  ghost predicate Attainable(rules: seq<Rule>, x: string) { exists schema, table :: Loads(rules, schema, table, x) }

  lemma LoadsIsListed(rules: seq<Rule>, schema: string, table: string, x: string)
    requires Loads(rules, schema, table, x)
    ensures FateOf(rules, Stat(schema, table, true)) == Listed(FolderNames(rules, schema, table).value)
  {
    LastMatchWins(rules, schema, table);
  }

  lemma ListedIsLoaded(rules: seq<Rule>, st: Stat)
    requires FateOf(rules, st).Listed?
    ensures Loads(rules, Strip(st.schema), Strip(st.table), Lower(FateOf(rules, st).folder.0))
  {
    LastMatchWins(rules, Strip(st.schema), Strip(st.table));
    StripTwice(st.schema);
    StripTwice(st.table);
  }

  lemma {:induction false} FatesPrefix(rules: seq<Rule>, stats: seq<Stat>, more: seq<Stat>, n: nat)
    requires n <= |stats| && stats <= more
    ensures FatesTo(rules, stats, n) == FatesTo(rules, more, n)
  {
    if n > 0 {
      FatesPrefix(rules, stats, more, n - 1);
    }
  }

  lemma FatesSnoc(rules: seq<Rule>, stats: seq<Stat>, st: Stat)
    ensures Fates(rules, stats + [st]) == Fates(rules, stats) + [FateOf(rules, st)]
  {
    FatesPrefix(rules, stats, stats + [st], |stats|);
  }

  lemma SchemasSnoc(rows: seq<Folder>, n: Folder)
    ensures SchemasOf(rows + [n]) == SchemasOf(rows) + {Lower(n.0)}
  {
    var all := rows + [n];
    forall x ensures x in SchemasOf(all) <==> x in SchemasOf(rows) || x == Lower(n.0) {
      if x in SchemasOf(rows) {
        var k :| 0 <= k < |rows| && Lower(rows[k].0) == x;
        assert all[k] == rows[k];
      }
      assert all[|rows|] == n;
    }
  }

  /** One more completed table, with a schema of its own. */
  lemma BuildMore(fates: seq<Fate>, rows: seq<Folder>, schemas: set<string>, n: Folder)
    requires BuildOk(fates, rows, schemas) && Lower(n.0) !in schemas
    ensures BuildOk(fates + [Listed(n)], rows + [n], schemas + {Lower(n.0)})
  {
    SchemasSnoc(rows, n);
    assert forall f :: f in fates + [Listed(n)] <==> f in fates || f == Listed(n);
    assert forall f :: f in rows + [n] <==> f in rows || f == n;
    assert n !in rows;
  }

  /** Attainable schemas can all be loaded at once. */
  lemma {:induction false} LoadAll(rules: seq<Rule>, xs: set<string>) returns (stats: seq<Stat>, rows: seq<Folder>)
    requires forall x :: x in xs ==> Attainable(rules, x)
    ensures BuildOk(Fates(rules, stats), rows, xs)
    decreases |xs|
  {
    stats, rows := [], [];
    if xs != {} {
      var x :| x in xs;
      stats, rows := LoadAll(rules, xs - {x});
      stats, rows := LoadOneMore(rules, stats, rows, xs - {x}, x);
      assert xs - {x} + {x} == xs;
    }
  }

  lemma LoadOneMore(rules: seq<Rule>, stats: seq<Stat>, rows: seq<Folder>, xs: set<string>, x: string)
    returns (stats': seq<Stat>, rows': seq<Folder>)
    requires BuildOk(Fates(rules, stats), rows, xs) && x !in xs && Attainable(rules, x)
    ensures BuildOk(Fates(rules, stats'), rows', xs + {x})
  {
    var schema, table :| Loads(rules, schema, table, x);
    var st, n := Stat(schema, table, true), FolderNames(rules, schema, table).value;
    LoadsIsListed(rules, schema, table, x);
    FatesSnoc(rules, stats, st);
    BuildMore(Fates(rules, stats), rows, xs, n);
    stats', rows' := stats + [st], rows + [n];
  }

  lemma BuiltIsAttainable(rules: seq<Rule>, stats: seq<Stat>, rows: seq<Folder>, schemas: set<string>, x: string)
    requires BuildOk(Fates(rules, stats), rows, schemas) && x in schemas
    ensures Attainable(rules, x)
  {
    var fates := Fates(rules, stats);
    var k :| 0 <= k < |rows| && x == Lower(rows[k].0);
    assert Listed(rows[k]) in fates;
    var i: nat :| i < |fates| && fates[i] == Listed(rows[k]);
    FateAt(rules, stats, |stats|, i);
    ListedIsLoaded(rules, stats[i]);
  }

  /** With no unknown schema, some build that passes has as many schemas as the estimate counts, and
      then exactly those, if and only if each of them is the folder schema of some table whose last
      matching rule is an include. */
  lemma EstimateIsReachedExactly(rules: seq<Rule>, estimate: set<string>)
    requires EstimateOk(Shares(rules), estimate, false)
    ensures (exists stats, rows, schemas :: BuildOk(Fates(rules, stats), rows, schemas) && |schemas| >= |estimate|)
            <==> forall x :: x in estimate ==> Attainable(rules, x)
    ensures forall stats, rows, schemas :: BuildOk(Fates(rules, stats), rows, schemas) && |schemas| >= |estimate| ==>
              schemas == estimate
  {
    forall stats, rows, schemas | BuildOk(Fates(rules, stats), rows, schemas) && |schemas| >= |estimate|
      ensures schemas == estimate && forall x :: x in estimate ==> Attainable(rules, x)
    {
      EstimateCoversTheBuild(rules, stats, rows, schemas, estimate);
      SubsetSize(estimate - schemas, estimate);
      assert |estimate - schemas| == |estimate| - |schemas|;
      assert schemas == estimate;
      forall x | x in estimate ensures Attainable(rules, x) {
        BuiltIsAttainable(rules, stats, rows, schemas, x);
      }
    }
    if forall x :: x in estimate ==> Attainable(rules, x) {
      var stats, rows := LoadAll(rules, estimate);
      assert BuildOk(Fates(rules, stats), rows, estimate);
    }
  }

  // ----- which rules reach their schema ----------------------------------------------------

  /** The rule is an include that counts `x`, and a table name as DMS reports them gets through to it:
      it is the last match in its own schema. */
  ghost predicate LetsThrough(rules: seq<Rule>, i: nat, table: string, x: string) {
    && CountsFor(rules, i, x)
    && table != "" && Strip(table) == table && LastMatch(rules, rules[i].schemaPattern.value, table, i)
    && FolderNames(rules, rules[i].schemaPattern.value, table).Ok?
    && FolderNames(rules, rules[i].schemaPattern.value, table).value.1 != ""
  }

  /** An include rule whose share of the estimate is `x`, for a schema that can be reported. */
  predicate CountsFor(rules: seq<Rule>, i: nat, x: string) {
    && i < |rules| && IsSelection(rules[i]) && Includes(rules[i]) && ShareOf(rules, rules[i]) == Known(x)
    && rules[i].schemaPattern.Some? && Strip(rules[i].schemaPattern.value) == rules[i].schemaPattern.value
  }

  lemma LoadedIsLetThrough(rules: seq<Rule>, schema: string, table: string, x: string) returns (i: nat)
    requires Unknown !in Shares(rules) && Loads(rules, schema, table, x)
    ensures LetsThrough(rules, i, table, x)
  {
    i :| i < |rules| && LastMatch(rules, schema, table, i) && Includes(rules[i]);
    ShareAt(rules, |rules|, i);
    PatternIsTheSchema(rules, rules[i], schema);
    SelectorCounts(rules, rules[i], schema, table);
    PatternChars(rules[i].schemaPattern.value);
    ExactPattern(rules[i].schemaPattern.value, schema);
  }

  lemma LetThroughIsLoaded(rules: seq<Rule>, i: nat, table: string, x: string)
    requires LetsThrough(rules, i, table, x)
    ensures Loads(rules, rules[i].schemaPattern.value, table, x)
  {
    SchemaIgnoresTheTable(rules, rules[i].schemaPattern.value, table, "");
  }

  /** The schema of a loaded table is spelled out in the rule that selects it, so only a table name is
      left to look for. */
  lemma AttainableThroughARule(rules: seq<Rule>, x: string)
    requires Unknown !in Shares(rules)
    ensures Attainable(rules, x) <==> exists i, table :: LetsThrough(rules, i, table, x)
  {
    if Attainable(rules, x) {
      var schema, table :| Loads(rules, schema, table, x);
      var i := LoadedIsLetThrough(rules, schema, table, x);
    }
    if exists i, table :: LetsThrough(rules, i, table, x) {
      var i, table :| LetsThrough(rules, i, table, x);
      LetThroughIsLoaded(rules, i, table, x);
    }
  }

  // ----- rules for whole schemas and single tables -----------------------------------------

  /** The rule is about every table of its schemas. */
  predicate Whole(r: Rule) {
    r.tablePattern.Some? ==>
      && r.tablePattern.value != ""
      && forall c :: 0 <= c < |r.tablePattern.value| ==>
          r.tablePattern.value[c] == '%' || r.tablePattern.value[c] == '*'
  }

  /** The rule is about one table. */
  predicate Single(r: Rule) { r.tablePattern.Some? && !Wild(r.tablePattern.value) }

  /** Rules about whole schemas and single tables, and none that renames tables. */
  predicate PlainRules(rules: seq<Rule>) {
    && (forall i :: 0 <= i < |rules| && IsSelection(rules[i]) ==> Whole(rules[i]) || Single(rules[i]))
    && (forall i :: 0 <= i < |rules| ==> !(NamesTransform(rules[i]) && rules[i].target.TableTarget?))
  }

  /** A later rule about the same schema. */
  predicate Later(rules: seq<Rule>, i: nat, k: nat) {
    i < k < |rules| && rules[i].schemaPattern.Some? && IsSelection(rules[k])
    && MatchesIfGiven(rules[k].schemaPattern, rules[i].schemaPattern.value)
  }

  /** No later rule takes away what the rule includes: of a whole schema, no later rule about the whole
      of it; of a single table, no later rule about the schema or that table. */
  predicate Unshadowed(rules: seq<Rule>, i: nat, x: string) {
    && CountsFor(rules, i, x)
    && if Single(rules[i]) then
         && Strip(rules[i].tablePattern.value) == rules[i].tablePattern.value
         && forall k :: 0 <= k < |rules| && Later(rules, i, k) ==>
             !Whole(rules[k]) && rules[k].tablePattern != rules[i].tablePattern
       else forall k :: 0 <= k < |rules| && Later(rules, i, k) ==> !Whole(rules[k])
  }

  lemma {:induction false} LikeAll(s: string, pattern: string)
    requires pattern != "" && forall c :: 0 <= c < |pattern| ==> pattern[c] == '%'
    ensures Like(s, pattern)
    decreases |s| + |pattern|
  {
    if |pattern| > 1 {
      LikeAll(s, pattern[1..]);
    } else if s != [] {
      LikeAll(s[1..], pattern);
    }
  }

  lemma WholeMatches(r: Rule, table: string)
    requires Whole(r)
    ensures MatchesIfGiven(r.tablePattern, table)
  {
    if r.tablePattern.Some? {
      LikeAll(table, Stars(r.tablePattern.value));
    }
  }

  lemma SingleMatches(r: Rule, table: string)
    requires Single(r)
    ensures MatchesIfGiven(r.tablePattern, table) <==> r.tablePattern == Some(table)
  {
    ExactPattern(r.tablePattern.value, table);
  }

  lemma {:induction false} TableKeepsItsName(rules: seq<Rule>, schema: string, table: string)
    requires forall i :: 0 <= i < |rules| ==> !(NamesTransform(rules[i]) && rules[i].target.TableTarget?)
    ensures FolderNames(rules, schema, table).Ok? ==> FolderNames(rules, schema, table).value.1 == table
  {
    if rules != [] {
      TableKeepsItsName(rules[..|rules| - 1], schema, table);
    }
  }

  lemma LetThroughIsUnshadowed(rules: seq<Rule>, i: nat, table: string, x: string)
    requires PlainRules(rules) && LetsThrough(rules, i, table, x)
    ensures Unshadowed(rules, i, x)
  {
    if Single(rules[i]) {
      SingleMatches(rules[i], table);
    }
    forall k | 0 <= k < |rules| && Later(rules, i, k) ensures !Whole(rules[k]) && rules[k].tablePattern != Some(table) {
      assert !Selects(rules[k], rules[i].schemaPattern.value, table);
      if Whole(rules[k]) {
        WholeMatches(rules[k], table);
      } else {
        SingleMatches(rules[k], table);
      }
    }
  }

  /** A name longer than every table a rule names. */
  lemma {:induction false} OtherTable(rules: seq<Rule>) returns (table: string)
    ensures table != "" && Strip(table) == table && forall c :: 0 <= c < |table| ==> table[c] == 'x'
    ensures forall k :: 0 <= k < |rules| && rules[k].tablePattern.Some? ==> |rules[k].tablePattern.value| < |table|
  {
    if rules == [] {
      table := "x";
    } else {
      var front, last := rules[..|rules| - 1], rules[|rules| - 1];
      table := OtherTable(front);
      table := table + if last.tablePattern.Some? then seq(|last.tablePattern.value|, _ => 'x') else "";
      assert forall k :: 0 <= k < |front| ==> rules[k] == front[k];
    }
    StripOfStripped(table);
  }

  lemma UnshadowedIsLetThrough(rules: seq<Rule>, i: nat, x: string) returns (table: string)
    requires PlainRules(rules) && Unshadowed(rules, i, x)
    ensures LetsThrough(rules, i, table, x)
  {
    if Single(rules[i]) {
      table := rules[i].tablePattern.value;
      SingleMatches(rules[i], table);
    } else {
      table := OtherTable(rules);
      WholeMatches(rules[i], table);
    }
    var schema := rules[i].schemaPattern.value;
    ExactPattern(schema, schema);
    forall k | i < k < |rules| ensures !Selects(rules[k], schema, table) {
      if Later(rules, i, k) {
        SingleMatches(rules[k], table);
      }
    }
    SchemaIgnoresTheTable(rules, schema, table, "");
    TableKeepsItsName(rules, schema, table);
  }

  /** A name that agrees with the pattern except where it has a wildcard fits it. */
  lemma {:induction false} FitsItsShape(pattern: string, name: string)
    requires |name| == |pattern|
    requires forall i :: 0 <= i < |name| ==> pattern[i] == name[i] || pattern[i] in {'%', '*', '_'}
    ensures Fits(pattern, name)
    decreases |pattern|
  {
    if pattern != "" {
      FitsItsShape(pattern[1..], name[1..]);
    }
  }

  /** A pattern that fits every name is a run of wildcards, and one that fits itself alone has none. */
  lemma {:induction false} OnlyWildcardsFitAll(pattern: string)
    requires Fits(pattern, "")
    ensures forall c :: 0 <= c < |pattern| ==> pattern[c] == '%' || pattern[c] == '*'
  {
    if pattern != "" {
      OnlyWildcardsFitAll(pattern[1..]);
      assert forall c :: 1 <= c < |pattern| ==> pattern[c] == pattern[1..][c - 1];
    }
  }

  lemma OneNameHasNoWildcard(pattern: string)
    requires forall name :: Fits(pattern, name) ==> name == pattern
    ensures '%' !in pattern && '*' !in pattern && '_' !in pattern
  {
    if '%' in pattern || '*' in pattern || '_' in pattern {
      var i :| 0 <= i < |pattern| && pattern[i] in {'%', '*', '_'};
      var other := pattern[i := 'x'];
      assert other[i] != pattern[i];
      FitsItsShape(pattern, other);
    }
  }

  /** A rule about every table of its schemas, or about one table. */
  ghost predicate AboutAllOrOne(r: Rule) {
    r.tablePattern.Some? ==>
      || (forall t :: Fits(r.tablePattern.value, t))
      || (r.tablePattern.value != "" && forall t :: Fits(r.tablePattern.value, t) ==> t == r.tablePattern.value)
  }

  lemma AboutAllOrOneIsPlain(r: Rule)
    requires AboutAllOrOne(r)
    ensures Whole(r) || Single(r)
  {
    if r.tablePattern.Some? {
      var p := r.tablePattern.value;
      if forall t :: Fits(p, t) {
        assert Fits(p, "") && Fits(p, "x");
        OnlyWildcardsFitAll(p);
      } else {
        OneNameHasNoWildcard(p);
      }
    }
  }

  /** So whether a build can reach the whole estimate is read off the rules, when each selects by whole
      schemas or single tables and none renames tables: each schema counted needs an include rule that no
      later rule shadows. */
  lemma EstimateIsReachedByTheRules(rules: seq<Rule>, estimate: set<string>)
    requires EstimateOk(Shares(rules), estimate, false)
    requires forall i :: 0 <= i < |rules| && rules[i].ruleType == Selection ==> AboutAllOrOne(rules[i])
    requires forall i :: 0 <= i < |rules| && rules[i].ruleType == Transformation ==> rules[i].target != TableTarget
    ensures (exists stats, rows, schemas :: BuildOk(Fates(rules, stats), rows, schemas) && |schemas| >= |estimate|)
            <==> forall x :: x in estimate ==> exists i :: Unshadowed(rules, i, x)
  {
    forall i | 0 <= i < |rules| && rules[i].ruleType == Selection ensures Whole(rules[i]) || Single(rules[i]) {
      AboutAllOrOneIsPlain(rules[i]);
    }
    EstimateIsReachedExactly(rules, estimate);
    forall x ensures Attainable(rules, x) <==> exists i :: Unshadowed(rules, i, x) {
      AttainableByTheRules(rules, x);
    }
  }

  lemma AttainableByTheRules(rules: seq<Rule>, x: string)
    requires Unknown !in Shares(rules) && PlainRules(rules)
    ensures Attainable(rules, x) <==> exists i :: Unshadowed(rules, i, x)
  {
    AttainableThroughARule(rules, x);
    if exists i, table :: LetsThrough(rules, i, table, x) {
      var i, table :| LetsThrough(rules, i, table, x);
      LetThroughIsUnshadowed(rules, i, table, x);
    }
    if exists i :: Unshadowed(rules, i, x) {
      var i :| Unshadowed(rules, i, x);
      var table := UnshadowedIsLetThrough(rules, i, x);
    }
  }

  // ----- a fleet that is refused and could be built ----------------------------------------

  function IncludeRule(schema: string): Rule { Rule(Selection, OtherTarget, Some(Include), Some(schema), None, None) }

  function ExcludeRule(schema: string): Rule { IncludeRule(schema).(action := Some(Exclude)) }

  /** An include rule for each schema, and at the end one that excludes the last of them. */
  function AllButLast(names: seq<string>): (rules: seq<Rule>)
    requires names != []
    ensures |rules| == |names| + 1 && rules[|names|] == ExcludeRule(names[|names| - 1])
    ensures forall i :: 0 <= i < |names| ==> rules[i] == IncludeRule(names[i])
  {
    seq(|names|, i requires 0 <= i < |names| => IncludeRule(names[i])) + [ExcludeRule(names[|names| - 1])]
  }

  predicate PlainNames(names: seq<string>) {
    && names != [] && Distinct(names)
    && forall i :: 0 <= i < |names| ==>
        names[i] != "" && !Wild(names[i]) && Stripped(names[i]) && Lower(names[i]) == names[i]
  }

  lemma PlainShare(names: seq<string>, i: nat)
    requires PlainNames(names) && i < |names|
    ensures i < |Shares(AllButLast(names))| && Shares(AllButLast(names))[i] == Known(names[i])
  {
    var rules := AllButLast(names);
    ShareAt(rules, |rules|, i);
    NoTransforms(rules, names[i], "");
    ShareOfInclude(rules, rules[i], names[i]);
  }

  lemma PlainShares(names: seq<string>)
    requires PlainNames(names)
    ensures EstimateOk(Shares(AllButLast(names)), SetOf(names), false)
  {
    var rules, n := AllButLast(names), |names|;
    forall i | 0 <= i < n ensures Shares(rules)[i] == Known(names[i]) {
      PlainShare(names, i);
    }
    ShareAt(rules, n + 1, n);
    forall x ensures x in SetOf(names) <==> Known(x) in Shares(rules) {
      if x in SetOf(names) {
        var i :| 0 <= i < n && names[i] == x;
        assert Shares(rules)[i] == Known(x);
      }
    }
  }

  lemma PlainIsLoaded(names: seq<string>, i: nat)
    requires PlainNames(names) && i < |names| - 1
    ensures Loads(AllButLast(names), names[i], "t", names[i])
  {
    var rules := AllButLast(names);
    forall k | 0 <= k < |rules| ensures Selects(rules[k], names[i], "t") <==> k == i {
      var pattern := rules[k].schemaPattern.value;
      ExactPattern(pattern, names[i]);
      assert pattern == names[if k < |names| then k else |names| - 1];
    }
    assert LastMatch(rules, names[i], "t", i) && Includes(rules[i]);
    NoTransforms(rules, names[i], "t");
    StripOfStripped(names[i]);
    StripOfStripped("t");
  }

  lemma OneFewer(names: seq<string>)
    requires PlainNames(names)
    ensures |SetOf(names)| == |names| && |SetOf(names[..|names| - 1])| == |names| - 1
  {
    SizeOfDistinct(names);
    SizeOfDistinct(names[..|names| - 1]);
  }

  /** Ten schemas are included and the last of them excluded again: preflight estimates ten, one
      over the cap, and refuses, but a build loads the other nine and passes. */
  lemma EstimateCanCountTooMuch(names: seq<string>)
    requires PlainNames(names) && |names| == MAX_DISTINCT_SCHEMAS + 1
    ensures EstimateOk(Shares(AllButLast(names)), SetOf(names), false) && |SetOf(names)| > MAX_DISTINCT_SCHEMAS
    ensures exists stats, rows, schemas ::
              && BuildOk(Fates(AllButLast(names), stats), rows, schemas) && rows != []
              && |schemas| == MAX_DISTINCT_SCHEMAS
  {
    var rules, fewer := AllButLast(names), names[..|names| - 1];
    PlainShares(names);
    OneFewer(names);
    forall x | x in SetOf(fewer) ensures Attainable(rules, x) {
      var i :| 0 <= i < |fewer| && fewer[i] == x;
      PlainIsLoaded(names, i);
    }
    var stats, rows := LoadAll(rules, SetOf(fewer));
    assert BuildOk(Fates(rules, stats), rows, SetOf(fewer));
    assert rows == [] ==> SchemasOf(rows) == {};
  }

  /** Names as the lemma above wants them: "a" to "j". */
  lemma TenNames() returns (names: seq<string>)
    ensures PlainNames(names) && |names| == MAX_DISTINCT_SCHEMAS + 1
  {
    names := seq(10, i requires 0 <= i < 10 => [('a' as int + i) as char]);
    forall i | 0 <= i < 10
      ensures names[i] != "" && !Wild(names[i]) && Stripped(names[i]) && Lower(names[i]) == names[i]
    {
      OneLetter(names[i][0]);
    }
  }

  lemma OneLetter(c: char)
    requires 'a' <= c <= 'j'
    ensures !Wild([c]) && Stripped([c]) && Lower([c]) == [c]
  {
  }
}
