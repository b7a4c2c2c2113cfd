/**
 The NULL-handling settings: the job's parser for `null_values` and `null_rules`
 (scripts/glue_cdc_composite.py), the form its start-up log prints them in, and the preflight
 check (lambdas/resolve_task.py).
 */
module NullRules {
  import opened Util
  import opened Text
  import opened NullText

  // ----- one entry -------------------------------------------------------------------------

  predicate HasEmpty(parts: seq<string>) { exists i :: 0 <= i < |parts| && parts[i] == "" }

  function Folded(part: string): string { Lower(Strip(part)) }

  /** The left side: exactly three dot-separated names. */
  function ParseName(left: string): Result<Column, RuleError> {
    var parts := Split(left, '.');
    if |parts| != 3 || Strip(parts[0]) == "" || Strip(parts[1]) == "" || Strip(parts[2]) == "" then Err(BadName)
    else Ok(Column(Folded(parts[0]), Folded(parts[1]), Folded(parts[2])))
  }

  /** The right side: `none`, or markers. */
  function ParseValues(right: string): Result<seq<string>, RuleError> {
    if right == "" then Err(EmptyValues)
    else if Lower(right) == "none" then Ok([])
    else if HasEmpty(Split(right, '|')) then Err(EmptyMarker)
    else Ok(Split(right, '|'))
  }

  /** The two sides of an entry at its first `=`; nothing for a blank one. */
  function Sides(entry: string): Result<Option<(string, string)>, RuleError> {
    var e := Strip(entry);
    if e == "" then Ok(None)
    else if '=' !in e then Err(NoEquals)
    else Ok(Some((Strip(e[..IndexOf(e, '=')]), Strip(e[IndexOf(e, '=') + 1..]))))
  }

  function ParseEntry(entry: string): Result<Option<Rule>, RuleError> {
    match Sides(entry)
    case Err(bad) => Err(bad)
    case Ok(None) => Ok(None)
    case Ok(Some(sides)) =>
      match ParseName(sides.0)
      case Err(bad) => Err(bad)
      case Ok(key) =>
        match ParseValues(sides.1)
        case Err(bad) => Err(bad)
        case Ok(markers) => Ok(Some(Rule(key, markers)))
  }

  type Parsed = Result<Option<Rule>, RuleError>

  function ParseAll(entries: seq<string>): (parsed: seq<Parsed>)
    ensures |parsed| == |entries|
  {
    seq(|entries|, i requires 0 <= i < |entries| => ParseEntry(entries[i]))
  }

  /** The entries in order; the first bad one ends the scan, and a key may come once. */
  function Collect(parsed: seq<Parsed>): Result<seq<Rule>, RuleError> {
    if parsed == [] then Ok([])
    else
      match Collect(parsed[..|parsed| - 1])
      case Err(e) => Err(e)
      case Ok(rules) =>
        match parsed[|parsed| - 1]
        case Err(e) => Err(e)
        case Ok(None) => Ok(rules)
        case Ok(Some(r)) => if HasKey(rules, r.key) then Err(Twice) else Ok(rules + [r])
  }

  /** `_parse_null_rules`: `Ok(None)` is unset. */
  function RulesOf(raw: Option<string>): Result<Option<seq<Rule>>, RuleError> {
    if raw == None || raw.value == "" || raw.value == SENTINEL then Ok(None)
    else
      match Collect(ParseAll(Split(raw.value, ';')))
      case Ok(rules) => Ok(Some(rules))
      case Err(e) => Err(e)
  }

  lemma {:induction false} FirstErrorStays(parsed: seq<Parsed>, i: nat)
    requires i <= |parsed| && Collect(parsed[..i]).Err?
    ensures Collect(parsed) == Err(Collect(parsed[..i]).error)
  {
    if i < |parsed| {
      assert parsed[..|parsed| - 1][..i] == parsed[..i];
      FirstErrorStays(parsed[..|parsed| - 1], i);
    } else {
      assert parsed[..i] == parsed;
    }
  }

  lemma CollectSnoc(parsed: seq<Parsed>, i: nat)
    requires i < |parsed|
    ensures var more := Collect(parsed[..i + 1]);
            match Collect(parsed[..i])
            case Err(e) => more == Err(e)
            case Ok(rules) =>
              match parsed[i]
              case Err(e) => more == Err(e)
              case Ok(None) => more == Ok(rules)
              case Ok(Some(r)) => more == if HasKey(rules, r.key) then Err(Twice) else Ok(rules + [r])
  {
    assert parsed[..i + 1][..i] == parsed[..i] && parsed[..i + 1][i] == parsed[i];
  }

  // ----- what the entries say --------------------------------------------------------------

  lemma PartsAre(text: string, c: char, parts: seq<string>)
    ensures PartsOf(text, c, parts) <==> parts == Split(text, c)
  {
    JoinOfSplit(text, c);
    if PartsOf(text, c, parts) {
      SplitOfJoin(parts, c);
    }
  }

  lemma SidesMean(entry: string, left: string, right: string)
    ensures Sides(entry) == Ok(Some((left, right))) <==> SidesAre(entry, left, right)
    ensures Sides(entry).Ok? && Sides(entry).value == None <==> Strip(entry) == ""
    ensures Sides(entry).Err? <==> Wrong(entry, NoEquals)
    ensures Sides(entry).Err? ==> Sides(entry).error == NoEquals
  {
    var e := Strip(entry);
    if '=' in e {
      var a, b := e[..IndexOf(e, '=')], e[IndexOf(e, '=') + 1..];
      assert e == a + ['='] + b;
    }
    if SidesAre(entry, left, right) {
      var a, b :| '=' !in a && e == a + ['='] + b && left == Strip(a) && right == Strip(b);
      IndexOfFirst(a, '=', b);
      assert e[..|a|] == a && e[|a| + 1..] == b;
    }
  }

  lemma NameMeans(left: string, key: Column)
    ensures ParseName(left) == Ok(key) <==> NameSays(left, key)
    ensures ParseName(left).Err? ==> ParseName(left).error == BadName
  {
    PartsAre(left, '.', Split(left, '.'));
    if NameSays(left, key) {
      var parts :| PartsOf(left, '.', parts) && ThreeNames(parts, key);
      PartsAre(left, '.', parts);
    }
  }

  lemma EmptyIsIn(parts: seq<string>)
    ensures HasEmpty(parts) <==> "" in parts
  {
  }

  lemma ValuesMean(right: string, markers: seq<string>)
    ensures ParseValues(right) == Ok(markers) <==> ValuesSay(right, markers)
    ensures ParseValues(right).Err? ==>
              if right == "" then ParseValues(right).error == EmptyValues
              else EmptyIn(right) && ParseValues(right).error == EmptyMarker
  {
    PartsAre(right, '|', Split(right, '|'));
    PartsAre(right, '|', markers);
    EmptyIsIn(Split(right, '|'));
  }

  lemma EntryMeans(entry: string, r: Rule)
    ensures ParseEntry(entry) == Ok(Some(r)) <==> Says(entry, r)
    ensures ParseEntry(entry) == Ok(None) <==> Strip(entry) == ""
  {
    SidesMean(entry, "", "");
    if Sides(entry).Ok? && Sides(entry).value.Some? {
      var sides := Sides(entry).value.value;
      SidesMean(entry, sides.0, sides.1);
      NameMeans(sides.0, r.key);
      ValuesMean(sides.1, r.markers);
    }
    if Says(entry, r) {
      var left, right :| SidesAre(entry, left, right) && NameSays(left, r.key) && ValuesSay(right, r.markers);
      SidesMean(entry, left, right);
      NameMeans(left, r.key);
      ValuesMean(right, r.markers);
    }
  }

  lemma ErrorMeans(entry: string)
    requires ParseEntry(entry).Err?
    ensures Wrong(entry, ParseEntry(entry).error) && ParseEntry(entry).error != Twice
  {
    SidesMean(entry, "", "");
    if Sides(entry).Ok? {
      var sides := Sides(entry).value.value;
      SidesMean(entry, sides.0, sides.1);
      if ParseName(sides.0).Err? {
        forall key ensures !NameSays(sides.0, key) {
          NameMeans(sides.0, key);
        }
      } else {
        NameMeans(sides.0, ParseName(sides.0).value);
        ValuesMean(sides.1, []);
      }
    }
  }

  lemma PlacesNext(entries: seq<string>, n: nat, at: seq<nat>)
    requires n < |entries| && PlacesOf(entries, n, at)
    ensures PlacesOf(entries, n + 1, at + [n])
    ensures Strip(entries[n]) == "" ==> PlacesOf(entries, n + 1, at)
  {
    assert (at + [n])[|at|] == n;
    assert forall i :: i in at ==> i in at + [n];
  }

  lemma {:induction false} CollectedAreSaid(entries: seq<string>, n: nat) returns (at: seq<nat>)
    requires n <= |entries| && Collect(ParseAll(entries)[..n]).Ok?
    ensures PlacesOf(entries, n, at) && SaidAt(entries, at, Collect(ParseAll(entries)[..n]).value)
  {
    if n == 0 {
      at := [];
    } else {
      CollectSnoc(ParseAll(entries), n - 1);
      var before := CollectedAreSaid(entries, n - 1);
      at := OneMoreSaid(entries, n - 1, Collect(ParseAll(entries)[..n - 1]).value, before);
    }
  }

  lemma SaidNext(entries: seq<string>, n: nat, rules: seq<Rule>, at: seq<nat>, r: Rule)
    requires n < |entries| && SaidAt(entries, at, rules) && Says(entries[n], r)
    ensures SaidAt(entries, at + [n], rules + [r])
  {
  }

  lemma OneMoreSaid(entries: seq<string>, n: nat, rules: seq<Rule>, before: seq<nat>) returns (at: seq<nat>)
    requires n < |entries| && PlacesOf(entries, n, before) && SaidAt(entries, before, rules)
    requires ParseEntry(entries[n]).Ok?
    ensures var said := ParseEntry(entries[n]).value;
            PlacesOf(entries, n + 1, at) && SaidAt(entries, at, if said.Some? then rules + [said.value] else rules)
  {
    var said := ParseEntry(entries[n]).value;
    PlacesNext(entries, n, before);
    if said.Some? {
      EntryMeans(entries[n], said.value);
      SaidNext(entries, n, rules, before, said.value);
      at := before + [n];
    } else {
      EntryMeans(entries[n], Rule(Column("", "", ""), []));
      at := before;
    }
  }

  lemma {:induction false} CollectedOnce(parsed: seq<Parsed>)
    requires Collect(parsed).Ok?
    ensures DistinctKeys(Collect(parsed).value)
  {
    if parsed != [] {
      CollectedOnce(parsed[..|parsed| - 1]);
    }
  }

  lemma PrefixIsSaid(entries: seq<string>, n: nat)
    requires n <= |entries| && Collect(ParseAll(entries)[..n]).Ok?
    ensures RulesSaid(entries, n, Collect(ParseAll(entries)[..n]).value)
  {
    var at := CollectedAreSaid(entries, n);
    CollectedOnce(ParseAll(entries)[..n]);
  }

  lemma BadHere(entries: seq<string>, i: nat, rules: seq<Rule>)
    requires i < |entries| && RulesSaid(entries, i, rules)
    ensures var parsed := ParseEntry(entries[i]);
            && (parsed.Err? ==> BadAt(entries, i, parsed.error))
            && (parsed.Ok? && parsed.value.Some? && HasKey(rules, parsed.value.value.key) ==> BadAt(entries, i, Twice))
  {
    var parsed := ParseEntry(entries[i]);
    if parsed.Err? {
      ErrorMeans(entries[i]);
    } else if parsed.value.Some? {
      EntryMeans(entries[i], parsed.value.value);
    }
  }

  lemma BadNext(entries: seq<string>, i: nat, rules: seq<Rule>, e: RuleError)
    requires i < |entries| && RulesSaid(entries, i, rules)
    requires Collect(ParseAll(entries)[..i]) == Ok(rules) && Collect(ParseAll(entries)[..i + 1]) == Err(e)
    ensures BadAt(entries, i, e)
  {
    CollectSnoc(ParseAll(entries), i);
    BadHere(entries, i, rules);
  }

  /** The scan's error is that of the first entry that is not in order. */
  lemma {:induction false} FirstBad(entries: seq<string>, n: nat, e: RuleError) returns (i: nat)
    requires n <= |entries| && Collect(ParseAll(entries)[..n]) == Err(e)
    ensures BadAt(entries, i, e)
  {
    i := n - 1;
    if Collect(ParseAll(entries)[..i]).Err? {
      CollectSnoc(ParseAll(entries), i);
      i := FirstBad(entries, i, e);
    } else {
      PrefixIsSaid(entries, i);
      BadNext(entries, i, Collect(ParseAll(entries)[..i]).value, e);
    }
  }

  lemma RulesMean(raw: Option<string>)
    ensures Means(raw, RulesOf(raw))
  {
    if raw.Some? && raw.value != "" && raw.value != SENTINEL {
      var entries := Split(raw.value, ';');
      var all := ParseAll(entries);
      PartsAre(raw.value, ';', entries);
      assert all[..|entries|] == all;
      if Collect(all).Ok? {
        PrefixIsSaid(entries, |entries|);
      } else {
        var i := FirstBad(entries, |entries|, Collect(all).error);
      }
    }
  }

  /** `_parse_null_rules`: the loop that fills the dictionary. */
  method ParseNullRules(raw: Option<string>) returns (r: Rules)
    ensures r == RulesOf(raw) && Means(raw, r)
  {
    if raw == None || raw.value == "" || raw.value == SENTINEL {
      return Ok(None);
    }
    var entries := Split(raw.value, ';');
    ghost var all := ParseAll(entries);
    var rules: seq<Rule> := [];
    for i := 0 to |entries|
      invariant Collect(all[..i]) == Ok(rules)
    {
      CollectSnoc(all, i);
      var parsed := ParseEntry(entries[i]);
      assert parsed == all[i];
      match parsed {
        case Err(e) =>
          FirstErrorStays(all, i + 1);
          RulesMean(raw);
          return Err(e);
        case Ok(None) =>
        case Ok(Some(rule)) =>
          if HasKey(rules, rule.key) {
            FirstErrorStays(all, i + 1);
            RulesMean(raw);
            return Err(Twice);
          }
          rules := rules + [rule];
      }
    }
    assert all[..|entries|] == all;
    r := Ok(Some(rules));
    RulesMean(raw);
  }

  /** `_parse_null_values`: a `|` list of exact, non-empty strings. */
  function ValuesOf(raw: Option<string>): Result<Option<seq<string>>, RuleError> {
    if raw == None || raw.value == "" || raw.value == SENTINEL then Ok(None)
    else if HasEmpty(Split(raw.value, '|')) then Err(EmptyMarker)
    else Ok(Some(Split(raw.value, '|')))
  }

  lemma ValuesAre(raw: string, markers: seq<string>)
    ensures ValuesOf(Some(raw)) == Ok(Some(markers)) <==>
            raw != "" && raw != SENTINEL && PartsOf(raw, '|', markers) && "" !in markers
  {
    PartsAre(raw, '|', markers);
    EmptyIsIn(Split(raw, '|'));
  }

  // ----- the printed form ------------------------------------------------------------------

  function PrintName(c: Column): string { c.schema + "." + (c.table + "." + c.column) }

  function PrintValues(markers: seq<string>): string { if markers == [] then "none" else Join(markers, '|') }

  function PrintRule(r: Rule): string { PrintName(r.key) + "=" + PrintValues(r.markers) }

  /** The parts between the separators: every one but the first has the blank of `"; "`. */
  function PrintedParts(rules: seq<Rule>): (parts: seq<string>)
    ensures |parts| == |rules|
    ensures forall i :: 0 <= i < |rules| ==> parts[i] == Pad(i) + PrintRule(rules[i])
  {
    seq(|rules|, i requires 0 <= i < |rules| => Pad(i) + PrintRule(rules[i]))
  }

  function Pad(i: nat): string { if i == 0 then "" else " " }

  /** The start-up log's form: `"; ".join(...)`. */
  function PrintRules(rules: seq<Rule>): string
    requires rules != []
  {
    Join(PrintedParts(rules), ';')
  }

  // ----- names -----------------------------------------------------------------------------

  predicate Clean(s: string) { s != "" && Stripped(s) && ';' !in s }

  predicate NameOk(name: string) { Clean(name) && Lower(name) == name && '.' !in name && '=' !in name }

  predicate ColumnOk(c: Column) { NameOk(c.schema) && NameOk(c.table) && NameOk(c.column) }

  lemma FoldedIsOk(part: string)
    requires Strip(part) != "" && '.' !in part && ';' !in part && '=' !in part
    ensures NameOk(Folded(part))
  {
    var s := Strip(part);
    StripMeans(part);
    LowerKeeps(s, '.');
    LowerKeeps(s, ';');
    LowerKeeps(s, '=');
    LowerTwice(s);
    LowerStripped(s);
  }

  lemma ParsedNameIsOk(left: string)
    requires ';' !in left && '=' !in left && ParseName(left).Ok?
    ensures ColumnOk(ParseName(left).value)
  {
    var parts := Split(left, '.');
    JoinOfSplit(left, '.');
    FoldedIsOk(parts[0]);
    FoldedIsOk(parts[1]);
    FoldedIsOk(parts[2]);
  }

  lemma PrintedNameIsJoin(c: Column)
    ensures PrintName(c) == Join([c.schema, c.table, c.column], '.')
  {
    var parts := [c.schema, c.table, c.column];
    assert parts[1..] == [c.table, c.column] && [c.table, c.column][1..] == [c.column];
    assert Join([c.table, c.column], '.') == c.table + ['.'] + c.column;
    assert Join(parts, '.') == c.schema + ['.'] + (c.table + ['.'] + c.column);
  }

  lemma FoldedName(name: string)
    requires NameOk(name)
    ensures Folded(name) == name && Strip(name) != ""
  {
    StripOfStripped(name);
  }

  lemma ThreeNamesParse(left: string, a: string, b: string, c: string)
    requires Split(left, '.') == [a, b, c] && Strip(a) != "" && Strip(b) != "" && Strip(c) != ""
    ensures ParseName(left) == Ok(Column(Folded(a), Folded(b), Folded(c)))
  {
  }

  lemma PrintedNameParses(c: Column)
    requires ColumnOk(c)
    ensures ParseName(PrintName(c)) == Ok(c)
  {
    PrintedNameIsJoin(c);
    SplitOfJoin([c.schema, c.table, c.column], '.');
    FoldedName(c.schema);
    FoldedName(c.table);
    FoldedName(c.column);
    ThreeNamesParse(PrintName(c), c.schema, c.table, c.column);
  }

  lemma PrintedNameIsClean(c: Column)
    requires ColumnOk(c)
    ensures Clean(PrintName(c)) && '=' !in PrintName(c)
  {
    var p := PrintName(c);
    assert p[0] == c.schema[0] && p[|p| - 1] == c.column[|c.column| - 1];
  }

  // ----- values ----------------------------------------------------------------------------

  predicate MarkersOk(markers: seq<string>) {
    markers != [] ==>
      && !HasEmpty(markers) && Without(markers, '|') && Without(markers, ';')
      && Stripped(Join(markers, '|')) && Join(markers, '|') != "" && Lower(Join(markers, '|')) != "none"
  }

  lemma ParsedValuesAreOk(right: string)
    requires ';' !in right && Stripped(right) && ParseValues(right).Ok?
    ensures MarkersOk(ParseValues(right).value)
  {
    JoinOfSplit(right, '|');
  }

  lemma {:induction false} JoinHas(parts: seq<string>, c: char, x: char)
    requires parts != [] && x != c && Without(parts, x)
    ensures x !in Join(parts, c)
  {
    if |parts| > 1 {
      JoinHas(parts[1..], c, x);
    }
  }

  lemma PrintedValuesParse(markers: seq<string>)
    requires MarkersOk(markers)
    ensures ParseValues(PrintValues(markers)) == Ok(markers) && Clean(PrintValues(markers))
  {
    if markers == [] {
      assert Lower("none") == "none";
    } else {
      SplitOfJoin(markers, '|');
      JoinHas(markers, '|', ';');
    }
  }

  // ----- entries ---------------------------------------------------------------------------

  /** What every parsed rule is like. */
  predicate RuleOk(r: Rule) { ColumnOk(r.key) && MarkersOk(r.markers) }

  lemma ParsedRuleIsOk(entry: string)
    requires ';' !in entry && ParseEntry(entry).Ok? && ParseEntry(entry).value.Some?
    ensures RuleOk(ParseEntry(entry).value.value)
  {
    var e := Strip(entry);
    var at := IndexOf(e, '=');
    StripMeans(entry);
    StripMeans(e[..at]);
    StripMeans(e[at + 1..]);
    ParsedNameIsOk(Strip(e[..at]));
    ParsedValuesAreOk(Strip(e[at + 1..]));
  }

  lemma CleanPair(k: string, v: string)
    requires Clean(k) && Clean(v) && '=' !in k
    ensures var p := k + "=" + v;
            Clean(p) && '=' in p && IndexOf(p, '=') == |k| && p[..|k|] == k && p[|k| + 1..] == v
  {
    var p := k + "=" + v;
    IndexOfFirst(k, '=', v);
    assert p[0] == k[0] && p[|p| - 1] == v[|v| - 1];
  }

  lemma PrintedRuleIsClean(r: Rule)
    requires RuleOk(r)
    ensures Clean(PrintRule(r)) && '=' in PrintRule(r)
  {
    PrintedNameIsClean(r.key);
    PrintedValuesParse(r.markers);
    CleanPair(PrintName(r.key), PrintValues(r.markers));
  }

  lemma PaddedStrip(p: string, i: nat)
    requires Clean(p)
    ensures Strip(Pad(i) + p) == p
  {
    StripOfStripped(p);
    assert "" + p == p;
  }

  lemma SidesOfClean(k: string, v: string, i: nat)
    requires Clean(k) && Clean(v) && '=' !in k
    ensures Sides(Pad(i) + (k + "=" + v)) == Ok(Some((k, v)))
  {
    CleanPair(k, v);
    PaddedStrip(k + "=" + v, i);
    StripOfStripped(k);
    StripOfStripped(v);
  }

  /** A printed rule parses back, with or without the blank in front. */
  lemma PrintedRuleParses(r: Rule, i: nat)
    requires RuleOk(r)
    ensures ParseEntry(Pad(i) + PrintRule(r)) == Ok(Some(r))
  {
    PrintedNameIsClean(r.key);
    PrintedNameParses(r.key);
    PrintedValuesParse(r.markers);
    var k, v := PrintName(r.key), PrintValues(r.markers);
    SidesOfClean(k, v, i);
    FromSides(Pad(i) + PrintRule(r), k, v, r);
  }

  lemma FromSides(entry: string, left: string, right: string, r: Rule)
    requires Sides(entry) == Ok(Some((left, right))) && ParseName(left) == Ok(r.key)
    requires ParseValues(right) == Ok(r.markers)
    ensures ParseEntry(entry) == Ok(Some(r))
  {
  }

  predicate AllOk(rules: seq<Rule>) { forall i :: 0 <= i < |rules| ==> RuleOk(rules[i]) }

  lemma {:induction false} CollectedAreOk(parsed: seq<Parsed>)
    requires Collect(parsed).Ok?
    requires forall i :: 0 <= i < |parsed| && parsed[i].Ok? && parsed[i].value.Some? ==> RuleOk(parsed[i].value.value)
    ensures AllOk(Collect(parsed).value) && DistinctKeys(Collect(parsed).value)
  {
    if parsed != [] {
      var front := parsed[..|parsed| - 1];
      assert forall i :: 0 <= i < |front| ==> front[i] == parsed[i];
      CollectedAreOk(front);
    }
  }

  lemma ParsedRulesAreOk(entries: seq<string>)
    requires Without(entries, ';') && Collect(ParseAll(entries)).Ok?
    ensures AllOk(Collect(ParseAll(entries)).value) && DistinctKeys(Collect(ParseAll(entries)).value)
  {
    var parsed := ParseAll(entries);
    forall i | 0 <= i < |parsed| && parsed[i].Ok? && parsed[i].value.Some? ensures RuleOk(parsed[i].value.value) {
      ParsedRuleIsOk(entries[i]);
    }
    CollectedAreOk(parsed);
  }

  lemma {:induction false} CollectAll(rules: seq<Rule>, parsed: seq<Parsed>, n: nat)
    requires DistinctKeys(rules) && n <= |rules| == |parsed|
    requires forall i :: 0 <= i < |rules| ==> parsed[i] == Ok(Some(rules[i]))
    ensures Collect(parsed[..n]) == Ok(rules[..n])
  {
    if n > 0 {
      CollectAll(rules, parsed, n - 1);
      CollectSnoc(parsed, n - 1);
      assert rules[..n] == rules[..n - 1] + [rules[n - 1]];
      assert !HasKey(rules[..n - 1], rules[n - 1].key);
    }
  }

  lemma PrintedPartsParse(rules: seq<Rule>)
    requires AllOk(rules) && DistinctKeys(rules)
    ensures Collect(ParseAll(PrintedParts(rules))) == Ok(rules)
  {
    var parts := PrintedParts(rules);
    var parsed := ParseAll(parts);
    forall i | 0 <= i < |rules| ensures parsed[i] == Ok(Some(rules[i])) {
      PrintedRuleParses(rules[i], i);
    }
    CollectAll(rules, parsed, |rules|);
    assert parsed[..|rules|] == parsed && rules[..|rules|] == rules;
  }

  lemma PrintedPartsAreClean(rules: seq<Rule>)
    requires AllOk(rules)
    ensures Without(PrintedParts(rules), ';')
  {
    forall i | 0 <= i < |rules| ensures ';' !in PrintedParts(rules)[i] {
      PrintedRuleIsClean(rules[i]);
    }
  }

  lemma PrintedIsNotUnset(rules: seq<Rule>)
    requires AllOk(rules) && rules != []
    ensures PrintRules(rules) != "" && PrintRules(rules) != SENTINEL
  {
    PrintedRuleIsClean(rules[0]);
    var p := PrintRule(rules[0]);
    var i := IndexOf(p, '=');
    assert PrintedParts(rules)[0] == p;
    assert PrintRules(rules)[i] == '=';
    assert '=' !in SENTINEL;
  }

  /** Parsing the printed form of any non-empty parsed rule map gives the same map. */
  lemma PrintedRulesParse(raw: string)
    requires RulesOf(Some(raw)).Ok? && RulesOf(Some(raw)).value.Some? && RulesOf(Some(raw)).value.value != []
    ensures var rules := RulesOf(Some(raw)).value.value;
            RulesOf(Some(PrintRules(rules))) == Ok(Some(rules))
  {
    var rules := RulesOf(Some(raw)).value.value;
    JoinOfSplit(raw, ';');
    ParsedRulesAreOk(Split(raw, ';'));
    PrintedAgain(rules);
  }

  lemma PrintedAgain(rules: seq<Rule>)
    requires AllOk(rules) && DistinctKeys(rules) && rules != []
    ensures RulesOf(Some(PrintRules(rules))) == Ok(Some(rules))
  {
    var parts := PrintedParts(rules);
    PrintedPartsAreClean(rules);
    SplitOfJoin(parts, ';');
    PrintedPartsParse(rules);
    PrintedIsNotUnset(rules);
  }

  // ----- preflight -------------------------------------------------------------------------

  /** The value checks of preflight. */
  function CheckValues(right: string): Option<RuleError> {
    if right == "" then Some(EmptyValues)
    else if Lower(right) != "none" && HasEmpty(Split(right, '|')) then Some(EmptyMarker)
    else None
  }

  /** One entry as preflight reads it: the key it records. */
  function CheckEntry(entry: string): Result<Option<Column>, RuleError> {
    match Sides(entry)
    case Err(bad) => Err(bad)
    case Ok(None) => Ok(None)
    case Ok(Some(sides)) =>
      match ParseName(sides.0)
      case Err(bad) => Err(bad)
      case Ok(key) =>
        match CheckValues(sides.1)
        case Some(bad) => Err(bad)
        case None => Ok(Some(key))
  }

  function KeyOf(p: Parsed): Result<Option<Column>, RuleError> {
    match p
    case Err(e) => Err(e)
    case Ok(None) => Ok(None)
    case Ok(Some(r)) => Ok(Some(r.key))
  }

  lemma ValuesAgree(right: string)
    ensures CheckValues(right).None? <==> ParseValues(right).Ok?
    ensures CheckValues(right).Some? ==> ParseValues(right) == Err(CheckValues(right).value)
  {
  }

  /** The two readings of one entry agree. */
  lemma EntriesAgree(entry: string)
    ensures CheckEntry(entry) == KeyOf(ParseEntry(entry))
  {
    if Sides(entry).Ok? && Sides(entry).value.Some? {
      ValuesAgree(Sides(entry).value.value.1);
    }
  }

  function KeysOf(rules: seq<Rule>): set<Column> { set i | 0 <= i < |rules| :: rules[i].key }

  datatype Settings = Settings(values: string, rules: string)

  /** The entries in order, as preflight reads them: the keys seen, each of which may come once. */
  function CheckAll(entries: seq<string>): Result<set<Column>, RuleError> {
    if entries == [] then Ok({})
    else
      match CheckAll(entries[..|entries| - 1])
      case Err(e) => Err(e)
      case Ok(seen) =>
        match CheckEntry(entries[|entries| - 1])
        case Err(e) => Err(e)
        case Ok(None) => Ok(seen)
        case Ok(Some(key)) => if key in seen then Err(Twice) else Ok(seen + {key})
  }

  function CheckRules(rules: string): Result<set<Column>, RuleError> {
    if rules == "" then Ok({}) else CheckAll(Split(rules, ';'))
  }

  function CheckMarkers(values: string): Option<RuleError> {
    if values != "" && HasEmpty(Split(values, '|')) then Some(EmptyMarker) else None
  }

  /** Preflight on the two settings: trimmed, the values checked first. */
  function Preflight(values: string, rules: string): Result<(Settings, set<Column>), RuleError> {
    match CheckMarkers(Strip(values))
    case Some(e) => Err(e)
    case None =>
      match CheckRules(Strip(rules))
      case Err(e) => Err(e)
      case Ok(keys) => Ok((Settings(Strip(values), Strip(rules)), keys))
  }

  lemma {:induction false} FirstBadEntryStays(entries: seq<string>, i: nat)
    requires i <= |entries| && CheckAll(entries[..i]).Err?
    ensures CheckAll(entries) == CheckAll(entries[..i])
  {
    if i < |entries| {
      assert entries[..|entries| - 1][..i] == entries[..i];
      FirstBadEntryStays(entries[..|entries| - 1], i);
    } else {
      assert entries[..i] == entries;
    }
  }

  /** Preflight's loop over the entries: the keys it saw. */
  method CheckEntries(entries: seq<string>) returns (r: Result<set<Column>, RuleError>)
    ensures r == CheckAll(entries)
  {
    var seen: set<Column> := {};
    for i := 0 to |entries|
      invariant CheckAll(entries[..i]) == Ok(seen)
    {
      assert entries[..i + 1][..i] == entries[..i];
      match CheckEntry(entries[i]) {
        case Err(e) =>
          FirstBadEntryStays(entries, i + 1);
          return Err(e);
        case Ok(None) =>
        case Ok(Some(key)) =>
          if key in seen {
            FirstBadEntryStays(entries, i + 1);
            return Err(Twice);
          }
          seen := seen + {key};
      }
    }
    assert entries[..|entries|] == entries;
    r := Ok(seen);
  }

  /** `_validate_null_settings` on the two settings. */
  method ValidateNullSettings(values: string, rules: string) returns (r: Result<(Settings, set<Column>), RuleError>)
    ensures r == Preflight(values, rules)
  {
    var nv, nr := Strip(values), Strip(rules);
    if nv != "" && HasEmpty(Split(nv, '|')) {
      return Err(EmptyMarker);
    }
    var seen: Result<set<Column>, RuleError> := Ok({});
    if nr != "" {
      seen := CheckEntries(Split(nr, ';'));
    }
    r := match seen case Ok(keys) => Ok((Settings(nv, nr), keys)) case Err(e) => Err(e);
  }

  // ----- preflight and the job -------------------------------------------------------------

  lemma KeysSnoc(rules: seq<Rule>, r: Rule)
    ensures KeysOf(rules + [r]) == KeysOf(rules) + {r.key}
    ensures HasKey(rules, r.key) <==> r.key in KeysOf(rules)
  {
    forall k ensures k in KeysOf(rules + [r]) <==> k in KeysOf(rules) || k == r.key {
      if k in KeysOf(rules) {
        var i :| 0 <= i < |rules| && rules[i].key == k;
        assert (rules + [r])[i].key == k;
      }
      assert (rules + [r])[|rules|].key == r.key;
    }
  }

  /** The keys of a parse, or its error. */
  function KeysOrError(r: Result<seq<Rule>, RuleError>): Result<set<Column>, RuleError> {
    match r
    case Ok(rules) => Ok(KeysOf(rules))
    case Err(e) => Err(e)
  }

  /** Preflight's scan and the job's parse of the same entries: the same columns, or the same first
      error. */
  lemma {:induction false} ScansAgree(entries: seq<string>)
    ensures CheckAll(entries) == KeysOrError(Collect(ParseAll(entries)))
  {
    if entries == [] {
      assert ParseAll(entries) == [] && KeysOf([]) == {};
    } else {
      var n := |entries| - 1;
      var all := ParseAll(entries);
      ScansAgree(entries[..n]);
      EntriesAgree(entries[n]);
      assert ParseAll(entries[..n]) == all[..n] && all[..n + 1] == all;
      CollectSnoc(all, n);
      if Collect(all[..n]).Ok? && all[n].Ok? && all[n].value.Some? {
        KeysSnoc(Collect(all[..n]).value, all[n].value.value);
      }
    }
  }

  lemma SentinelText()
    ensures ';' !in SENTINEL && '=' !in SENTINEL && '|' !in SENTINEL && Stripped(SENTINEL)
  {
  }

  /** The unset marker, read as a rules text, has no `=`. */
  lemma SentinelFails()
    ensures CheckRules(SENTINEL) == Err(NoEquals) && RulesOf(Some(SENTINEL)) == Ok(None)
    ensures CheckMarkers(SENTINEL) == None
  {
    SentinelText();
    StripOfStripped(SENTINEL);
    assert Split(SENTINEL, ';') == [SENTINEL] && Split(SENTINEL, '|') == [SENTINEL];
    assert [SENTINEL][..0] == [];
    assert CheckEntry(SENTINEL) == Err(NoEquals);
  }

  /** What the job makes of the two settings as preflight stores them. */
  predicate JobAccepts(values: string, rules: string) {
    ValuesOf(Some(Strip(values))).Ok? && RulesOf(Some(Strip(rules))).Ok?
  }

  function JobKeys(rules: string): set<Column>
    requires RulesOf(Some(Strip(rules))).Ok?
  {
    match RulesOf(Some(Strip(rules))).value
    case None => {}
    case Some(parsed) => KeysOf(parsed)
  }

  lemma MarkersAgree(values: string)
    ensures CheckMarkers(values) == None <==> ValuesOf(Some(values)).Ok?
  {
    if values == SENTINEL {
      SentinelFails();
    }
  }

  lemma RulesAgree(rules: string)
    requires rules != SENTINEL
    ensures CheckRules(rules)
            == match RulesOf(Some(rules))
               case Err(e) => Err(e)
               case Ok(None) => Ok({})
               case Ok(Some(parsed)) => Ok(KeysOf(parsed))
  {
    ScansAgree(Split(rules, ';'));
  }

  /** Preflight accepts the two settings exactly when the job does, with the same columns; only the
      unset marker as a rules text, which the job reads as unset, is refused. */
  lemma AcceptedByPreflight(values: string, rules: string)
    ensures Preflight(values, rules).Ok? <==> JobAccepts(values, rules) && Strip(rules) != SENTINEL
    ensures Preflight(values, rules).Ok? ==>
              JobAccepts(values, rules)
              && Preflight(values, rules).value == (Settings(Strip(values), Strip(rules)), JobKeys(rules))
  {
    MarkersAgree(Strip(values));
    if Strip(rules) == SENTINEL {
      SentinelFails();
    } else {
      RulesAgree(Strip(rules));
    }
  }
}
