/**
 The cutover gate (lambdas/drain_check.py): it asks, per table, only whether the latest change
 file is in the ledger.  `CaughtUpMeansEverythingApplied` is why that is enough.
 */
module DrainCheck {
  import opened Util
  import opened ChangeRows
  import opened NetOps
  import opened ApplyProtocol
  import opened ApplySafety
  import opened ApplyTheorems
  import opened Text

  // ----- listing ---------------------------------------------------------------------------

  /** A key the gate takes for a change file: directly in the folder, not a full-load file, and
      a CSV in any letter case. */
  predicate IsCdcKey(prefix: string, key: string) {
    && prefix <= key
    && var rel := key[|prefix|..];
    && '/' !in rel
    && !("LOAD" <= Upper(rel))
    && EndsWith(Lower(key), ".csv")
  }

  predicate IsLatest(prefix: string, keys: seq<string>, latest: Option<string>) {
    match latest
    case None => forall i :: 0 <= i < |keys| ==> !IsCdcKey(prefix, keys[i])
    case Some(k) =>
      && k in keys && IsCdcKey(prefix, k)
      && forall i :: 0 <= i < |keys| && IsCdcKey(prefix, keys[i]) ==> keys[i] == k || Before(keys[i], k)
  }

  /** The letter, in either case. */
  predicate IsLetter(c: char, upper: char, lower: char) { c == upper || c == lower }

  predicate StartsLoad(rel: string) {
    && |rel| >= 4 && IsLetter(rel[0], 'L', 'l') && IsLetter(rel[1], 'O', 'o')
    && IsLetter(rel[2], 'A', 'a') && IsLetter(rel[3], 'D', 'd')
  }

  predicate EndsCsv(key: string) {
    && |key| >= 4 && key[|key| - 4] == '.' && IsLetter(key[|key| - 3], 'C', 'c')
    && IsLetter(key[|key| - 2], 'S', 's') && IsLetter(key[|key| - 1], 'V', 'v')
  }

  /** The answer, letter by letter: of the CSV keys directly under the prefix that are no full-load files
      the last by name, if there is one. */
  predicate LastChangeFile(prefix: string, keys: seq<string>, latest: Option<string>) {
    && (latest.Some? ==>
          && latest.value in keys && prefix <= latest.value && '/' !in latest.value[|prefix|..]
          && !StartsLoad(latest.value[|prefix|..]) && EndsCsv(latest.value))
    && (forall i :: 0 <= i < |keys| && prefix <= keys[i] && '/' !in keys[i][|prefix|..]
                    && !StartsLoad(keys[i][|prefix|..]) && EndsCsv(keys[i]) ==>
          latest.Some? && (keys[i] == latest.value || Before(keys[i], latest.value)))
  }

  lemma CdcKeyMeans(prefix: string, key: string)
    ensures IsCdcKey(prefix, key) <==>
            prefix <= key && '/' !in key[|prefix|..] && !StartsLoad(key[|prefix|..]) && EndsCsv(key)
  {
    if prefix <= key {
      LoadMeans(key[|prefix|..]);
    }
    CsvMeans(key);
  }

  lemma LoadMeans(rel: string)
    ensures "LOAD" <= Upper(rel) <==> StartsLoad(rel)
  {
    if |rel| >= 4 {
      assert Upper(rel)[..4] == [UpperChar(rel[0]), UpperChar(rel[1]), UpperChar(rel[2]), UpperChar(rel[3])];
      assert "LOAD" <= Upper(rel) <==> Upper(rel)[..4] == ['L', 'O', 'A', 'D'];
    }
  }

  lemma CsvMeans(key: string)
    ensures EndsWith(Lower(key), ".csv") <==> EndsCsv(key)
  {
    if |key| >= 4 {
      var n := |key| - 4;
      assert Lower(key)[n..]
             == [LowerChar(key[n]), LowerChar(key[n + 1]), LowerChar(key[n + 2]), LowerChar(key[n + 3])];
      assert EndsWith(Lower(key), ".csv") <==> Lower(key)[n..] == ['.', 'c', 's', 'v'];
    }
  }

  lemma LatestIsLast(prefix: string, keys: seq<string>, latest: Option<string>)
    requires IsLatest(prefix, keys, latest)
    ensures LastChangeFile(prefix, keys, latest)
  {
    forall key ensures IsCdcKey(prefix, key) <==>
                       prefix <= key && '/' !in key[|prefix|..] && !StartsLoad(key[|prefix|..]) && EndsCsv(key)
    {
      CdcKeyMeans(prefix, key);
    }
  }

  function Join(pages: seq<seq<string>>): seq<string> {
    if pages == [] then [] else Join(pages[..|pages| - 1]) + pages[|pages| - 1]
  }

  /** `_latest_cdc_file`: one pass over the pages of the folder listing. */
  method LatestCdcFile(prefix: string, pages: seq<seq<string>>) returns (latest: Option<string>)
    requires forall p, i :: 0 <= p < |pages| && 0 <= i < |pages[p]| ==> prefix <= pages[p][i]
    ensures IsLatest(prefix, Join(pages), latest) && LastChangeFile(prefix, Join(pages), latest)
  {
    latest := None;
    for p := 0 to |pages|
      invariant IsLatest(prefix, Join(pages[..p]), latest)
    {
      var page := pages[p];
      ghost var before := Join(pages[..p]);
      for i := 0 to |page|
        invariant IsLatest(prefix, before + page[..i], latest)
      {
        var k := page[i];
        ghost var seen := before + page[..i];
        assert before + page[..i + 1] == seen + [k];
        LatestSnoc(prefix, seen, latest, k);
        var rel := k[|prefix|..];
        if '/' in rel {
          continue;
        }
        if "LOAD" <= Upper(rel) {
          continue;
        }
        if EndsWith(Lower(k), ".csv") {
          if latest == None || Before(latest.value, k) {
            latest := Some(k);
          }
        }
      }
      assert page[..|page|] == page;
      assert pages[..p + 1][..p] == pages[..p];
    }
    assert pages[..|pages|] == pages;
    LatestIsLast(prefix, Join(pages), latest);
  }

  lemma LatestSnoc(prefix: string, keys: seq<string>, latest: Option<string>, k: string)
    requires IsLatest(prefix, keys, latest)
    ensures IsLatest(prefix, keys + [k],
                     if IsCdcKey(prefix, k) && (latest == None || Before(latest.value, k)) then Some(k) else latest)
  {
    var all := keys + [k];
    assert forall i :: 0 <= i < |all| ==> all[i] == if i < |keys| then keys[i] else k;
    assert k in all;
    if latest.Some? {
      assert latest.value in all;
      BeforeIsTotal(latest.value, k);
      forall i | 0 <= i < |keys| && IsCdcKey(prefix, keys[i]) && Before(latest.value, k)
        ensures Before(keys[i], k)
      {
        if keys[i] != latest.value {
          BeforeIsTransitive(keys[i], latest.value, k);
        }
      }
    }
  }

  // ----- the ledger query ------------------------------------------------------------------

  predicate Marked(ledger: map<Name, LedgerRow>, n: Name) {
    n in ledger && (ledger[n].done || ledger[n].committed)
  }

  function BaseName(key: string): string
    decreases |key|
  {
    if key == [] then [] else if key[|key| - 1] == '/' then [] else BaseName(key[..|key| - 1]) + [key[|key| - 1]]
  }

  /** The latest key is in the ledger as applied: by its full key, or as a fallback by a key that
      ends in its base name. */
  ghost predicate TableCaughtUp(latest: Option<string>, ledger: map<Name, LedgerRow>) {
    latest.Some? ==>
      || Marked(ledger, latest.value)
      || exists n :: Marked(ledger, n) && Like(n, "%" + BaseName(latest.value))
  }

  /** One table as the gate sees it. */
  datatype TableView = TableView(dsqlName: string, prefix: string, pages: seq<seq<string>>,
                                 ledger: map<Name, LedgerRow>)

  ghost predicate ViewCaughtUp(v: TableView) {
    exists latest :: IsLatest(v.prefix, Join(v.pages), latest) && TableCaughtUp(latest, v.ledger)
  }

  predicate WellListed(v: TableView) {
    forall p, i :: 0 <= p < |v.pages| && 0 <= i < |v.pages[p]| ==> v.prefix <= v.pages[p][i]
  }

  lemma LatestIsUnique(prefix: string, keys: seq<string>, a: Option<string>, b: Option<string>)
    requires IsLatest(prefix, keys, a) && IsLatest(prefix, keys, b)
    ensures a == b
  {
    if a.Some? && b.Some? {
      BeforeIsTotal(a.value, b.value);
    }
  }

  /** The row's key is the file's, or ends in the file's name behind its folder. */
  ghost predicate Names(n: Name, latest: string) {
    || n == latest
    || exists dir, base ::
         latest == dir + base && '/' !in base && (dir == "" || dir[|dir| - 1] == '/') && Like(n, "%" + base)
  }

  lemma {:induction false} BaseNameIs(key: string, dir: string, base: string)
    requires key == dir + base && '/' !in base && (dir == "" || dir[|dir| - 1] == '/')
    ensures BaseName(key) == base
    decreases |base|
  {
    BaseNameOf(dir, base);
  }

  lemma {:induction false} BaseNameSplits(key: string) returns (dir: string)
    ensures key == dir + BaseName(key) && '/' !in BaseName(key) && (dir == "" || dir[|dir| - 1] == '/')
  {
    if key == "" || key[|key| - 1] == '/' {
      dir := key;
    } else {
      dir := BaseNameSplits(key[..|key| - 1]);
      assert key == key[..|key| - 1] + [key[|key| - 1]];
    }
  }

  lemma NamesMeans(n: Name, latest: string)
    ensures Names(n, latest) <==> n == latest || Like(n, "%" + BaseName(latest))
  {
    var dir := BaseNameSplits(latest);
    if Names(n, latest) && n != latest {
      var d, base :| latest == d + base && '/' !in base && (d == "" || d[|d| - 1] == '/') && Like(n, "%" + base);
      BaseNameIs(latest, d, base);
    }
  }

  method LedgerHas(ledger: map<Name, LedgerRow>, latest: string) returns (hit: bool)
    ensures hit <==> TableCaughtUp(Some(latest), ledger)
    ensures hit <==> exists n :: n in ledger && (ledger[n].done || ledger[n].committed) && Names(n, latest)
  {
    forall n ensures Names(n, latest) <==> n == latest || Like(n, "%" + BaseName(latest)) {
      NamesMeans(n, latest);
    }
    hit := Marked(ledger, latest);
    if !hit {
      var names := ledger.Keys;
      while names != {}
        invariant names <= ledger.Keys
        invariant !hit
        invariant forall n :: n in ledger.Keys - names ==> !(Marked(ledger, n) && Like(n, "%" + BaseName(latest)))
        decreases |names|
      {
        var n :| n in names;
        if Marked(ledger, n) && Like(n, "%" + BaseName(latest)) {
          return true;
        }
        names := names - {n};
      }
    }
  }

  /** The names of the tables that are not caught up, in order. */
  ghost function LateNames(tables: seq<TableView>): seq<string> {
    if tables == [] then []
    else
      var v := tables[|tables| - 1];
      LateNames(tables[..|tables| - 1]) + if ViewCaughtUp(v) then [] else [v.dsqlName]
  }

  ghost predicate IsLate(v: TableView, name: string) { v.dsqlName == name && !ViewCaughtUp(v) }

  lemma {:induction false} LateAre(tables: seq<TableView>, name: string)
    ensures name in LateNames(tables) <==> exists i :: 0 <= i < |tables| && IsLate(tables[i], name)
  {
    if tables != [] {
      var front, last := tables[..|tables| - 1], tables[|tables| - 1];
      LateAre(front, name);
      assert forall i :: 0 <= i < |tables| ==> tables[i] == if i < |front| then front[i] else last;
      assert forall i :: 0 <= i < |front| ==> front[i] == tables[i];
    }
  }

  lemma FirstFifty(tables: seq<TableView>)
    ensures var late := LateNames(tables);
            var first := late[..Min(50, |late|)];
            && (forall x :: x in first ==> exists i :: 0 <= i < |tables| && IsLate(tables[i], x))
            && (|first| < 50 ==>
                  forall i :: 0 <= i < |tables| && !ViewCaughtUp(tables[i]) ==> tables[i].dsqlName in first)
  {
    var late := LateNames(tables);
    var first := late[..Min(50, |late|)];
    forall x | x in first ensures exists i :: 0 <= i < |tables| && IsLate(tables[i], x) {
      LateAre(tables, x);
    }
    if |first| < 50 {
      assert first == late;
      forall i | 0 <= i < |tables| && !ViewCaughtUp(tables[i]) ensures tables[i].dsqlName in first {
        LateAre(tables, tables[i].dsqlName);
        assert IsLate(tables[i], tables[i].dsqlName);
      }
    }
  }

  lemma {:induction false} NoneLate(tables: seq<TableView>)
    ensures LateNames(tables) == [] <==> forall i :: 0 <= i < |tables| ==> ViewCaughtUp(tables[i])
  {
    if tables != [] {
      var front := tables[..|tables| - 1];
      NoneLate(front);
      assert forall i :: 0 <= i < |tables| ==> tables[i] == if i < |front| then front[i] else tables[|tables| - 1];
      assert forall i :: 0 <= i < |front| ==> front[i] == tables[i];
    }
  }

  /** `handler`: scan every table and collect the ones that are not caught up; the answer names
      at most fifty. */
  method CaughtUp(tables: seq<TableView>) returns (caughtUp: bool, pending: seq<string>, checked: nat)
    requires forall i :: 0 <= i < |tables| ==> WellListed(tables[i])
    ensures caughtUp <==> forall i :: 0 <= i < |tables| ==> ViewCaughtUp(tables[i])
    ensures pending == LateNames(tables)[..Min(50, |LateNames(tables)|)] && checked == |tables|
    ensures |pending| <= 50 && (caughtUp <==> pending == [])
    ensures forall x :: x in pending ==> exists i :: 0 <= i < |tables| && IsLate(tables[i], x)
    ensures |pending| < 50 ==>
              forall i :: 0 <= i < |tables| && !ViewCaughtUp(tables[i]) ==> tables[i].dsqlName in pending
  {
    var late: seq<string> := [];
    for i := 0 to |tables|
      invariant late == LateNames(tables[..i])
    {
      var v := tables[i];
      assert tables[..i + 1][..i] == tables[..i];
      var latest := LatestCdcFile(v.prefix, v.pages);
      var hit := true;
      if latest.Some? {
        hit := LedgerHas(v.ledger, latest.value);
      }
      assert hit <==> ViewCaughtUp(v) by {
        forall other | IsLatest(v.prefix, Join(v.pages), other) ensures other == latest {
          LatestIsUnique(v.prefix, Join(v.pages), latest, other);
        }
      }
      if !hit {
        late := late + [v.dsqlName];
      }
    }
    assert tables[..|tables|] == tables;
    NoneLate(tables);
    FirstFifty(tables);
    caughtUp, checked := late == [], |tables|;
    pending := late[..Min(50, |late|)];
  }

  // ----- why the latest file is enough -----------------------------------------------------

  /** DMS names a table's change files alike: one folder, one length, no `LIKE` wildcard. */
  predicate DmsName(prefix: string, length: nat, n: Name) {
    && prefix <= n && |n| == |prefix| + length
    && var base := n[|prefix|..]; '/' !in base && '%' !in base && '_' !in base
  }

  lemma {:induction false} BaseNameOf(prefix: string, base: string)
    requires '/' !in base && (prefix == [] || prefix[|prefix| - 1] == '/')
    ensures BaseName(prefix + base) == base
    decreases |base|
  {
    var key := prefix + base;
    if base != [] {
      assert key[..|key| - 1] == prefix + base[..|base| - 1];
      assert key[|key| - 1] == base[|base| - 1];
      BaseNameOf(prefix, base[..|base| - 1]);
    } else {
      assert key == prefix;
    }
  }

  /** Under DMS naming the base-name fallback finds the file itself and no other. */
  lemma FallbackFindsOnlyTheFile(prefix: string, length: nat, n: Name, latest: Name)
    requires DmsName(prefix, length, n) && DmsName(prefix, length, latest)
    requires prefix == [] || prefix[|prefix| - 1] == '/'
    ensures Like(n, "%" + BaseName(latest)) <==> n == latest
  {
    var base := latest[|prefix|..];
    assert latest == prefix + base;
    BaseNameOf(prefix, base);
    LikeSuffix(n, base);
    assert n == prefix + n[|prefix|..];
    assert n[|n| - |base|..] == n[|prefix|..];
  }

  /** The frozen folder and the listing the gate reads: every file of the folder is listed as a
      change file, and the names follow DMS. */
  ghost predicate Frozen(s: State, v: TableView, length: nat) {
    && v.ledger == s.db.ledger
    && (v.prefix == [] || v.prefix[|v.prefix| - 1] == '/')
    && (forall i :: 0 <= i < |s.folder| ==>
          && s.folder[i].name in Join(v.pages) && IsCdcKey(v.prefix, s.folder[i].name)
          && DmsName(v.prefix, length, s.folder[i].name))
    && (forall k :: k in Join(v.pages) && IsCdcKey(v.prefix, k) ==> DmsName(v.prefix, length, k))
  }

  /** The table claimed when the checkpoint has passed every operation of the last file. */
  lemma ClaimAtTheEnd(s: State, p: Pos)
    requires PosOk(s.ctx, s.folder, s.listed, p) && DoneCount(s.folder, p.lastDone) == |s.folder| - 1
    requires p.offset == |Ops(s.ctx, s.folder[|s.folder| - 1])|
    ensures Claimed(s, p) == FullTable(s.ctx, s.baseline, s.folder)
  {
    AllOpsClaimed(s, p, s.folder[|s.folder| - 1]);
  }

  lemma ClaimAfterTheEnd(s: State, p: Pos)
    requires PosOk(s.ctx, s.folder, s.listed, p) && DoneCount(s.folder, p.lastDone) == |s.folder|
    ensures Claimed(s, p) == FullTable(s.ctx, s.baseline, s.folder)
  {
    assert s.folder[..|s.folder|] == s.folder;
  }

  /** The files whose rows are all in the target, when the checkpoint covers the last one. */
  lemma CoversLast(s: State)
    requires PosOk(s.ctx, s.folder, s.listed, s.db.pos) && s.db.target == Claimed(s, s.db.pos)
    requires s.folder != [] && Covers(s, s.db.pos, |s.folder| - 1)
    ensures s.db.target == FullTable(s.ctx, s.baseline, s.folder)
  {
    if DoneCount(s.folder, s.db.pos.lastDone) == |s.folder| {
      ClaimAfterTheEnd(s, s.db.pos);
    } else {
      ClaimAtTheEnd(s, s.db.pos);
    }
  }

  lemma CoveredAreReadable(s: State)
    requires PosOk(s.ctx, s.folder, s.listed, s.db.pos) && s.folder != [] && Covers(s, s.db.pos, |s.folder| - 1)
    ensures forall i :: 0 <= i < |s.folder| ==> Readable(s.ctx, s.folder[i])
  {
    var d := DoneCount(s.folder, s.db.pos.lastDone);
    forall i | 0 <= i < |s.folder| ensures Readable(s.ctx, s.folder[i]) {
      assert i < d || i == |s.folder| - 1;
    }
  }

  /** The gate is sound: in any reachable state of the engine, if the folder is frozen and the
      gate finds the table caught up, every file of the folder, not only the latest, is fully in
      the target. */
  lemma CaughtUpMeansEverythingApplied(s: State, steps: seq<Step>, v: TableView, length: nat)
    requires Init(s) && Legal(s, steps) && Frozen(Exec(s, steps), v, length)
    requires ViewCaughtUp(v)
    ensures var e := Exec(s, steps); e.db.target == FullTable(e.ctx, e.baseline, e.folder)
    ensures var e := Exec(s, steps); forall i :: 0 <= i < |e.folder| ==> Readable(e.ctx, e.folder[i])
  {
    InitHolds(s);
    Reached(s, steps);
    var e := Exec(s, steps);
    if e.folder != [] {
      MarkedIsLast(e, v, length);
      CoversLast(e);
      CoveredAreReadable(e);
    } else {
      assert DoneCount(e.folder, e.db.pos.lastDone) == 0;
      assert e.folder[..0] == e.folder;
    }
  }

  /** One table at cutover: the engine's history on it, the gate's view, the length of its names. */
  datatype Cutover = Cutover(start: State, steps: seq<Step>, view: TableView, length: nat)

  ghost predicate CutoverOk(c: Cutover) {
    Init(c.start) && Legal(c.start, c.steps) && Frozen(Exec(c.start, c.steps), c.view, c.length)
  }

  ghost predicate FullyApplied(c: Cutover)
    requires CutoverOk(c)
  {
    var e := Exec(c.start, c.steps);
    e.db.target == FullTable(e.ctx, e.baseline, e.folder)
  }

  /** The whole gate: over the views of all in-scope tables it answers "caught up" only if every one
      of them has every one of its files applied. */
  method CutoverGate(tables: seq<TableView>, ghost histories: seq<Cutover>)
    returns (caughtUp: bool, pending: seq<string>, checked: nat)
    requires forall i :: 0 <= i < |tables| ==> WellListed(tables[i])
    requires |histories| == |tables|
    requires forall i :: 0 <= i < |tables| ==> CutoverOk(histories[i]) && histories[i].view == tables[i]
    ensures caughtUp ==> forall i :: 0 <= i < |histories| ==> FullyApplied(histories[i])
    ensures pending == LateNames(tables)[..Min(50, |LateNames(tables)|)] && checked == |tables|
  {
    caughtUp, pending, checked := CaughtUp(tables);
    if caughtUp {
      GateMeansEveryTableApplied(histories);
    }
  }

  lemma GateMeansEveryTableApplied(histories: seq<Cutover>)
    requires forall i :: 0 <= i < |histories| ==> CutoverOk(histories[i]) && ViewCaughtUp(histories[i].view)
    ensures forall i :: 0 <= i < |histories| ==> FullyApplied(histories[i])
  {
    forall i | 0 <= i < |histories| ensures FullyApplied(histories[i]) {
      var c := histories[i];
      CaughtUpMeansEverythingApplied(c.start, c.steps, c.view, c.length);
    }
  }

  /** What a hit in the ledger names: the latest file itself, which holds a data row. */
  lemma HitIsTheFile(s: State, v: TableView, length: nat, latest: string) returns (i: nat)
    requires s.listed <= |s.folder| && LedgerNames(s) && Frozen(s, v, length)
    requires DmsName(v.prefix, length, latest) && TableCaughtUp(Some(latest), s.db.ledger)
    ensures i < s.listed && s.folder[i].name == latest && s.folder[i].rows != [] && Flagged(s, i)
  {
    var n := latest;
    if !Marked(s.db.ledger, latest) {
      n :| Marked(s.db.ledger, n) && Like(n, "%" + BaseName(latest));
    }
    i := RowHasItsFile(s, n);
    if n != latest {
      FallbackFindsOnlyTheFile(v.prefix, length, n, latest);
    }
  }

  lemma RowHasItsFile(s: State, n: Name) returns (i: nat)
    requires s.listed <= |s.folder| && LedgerNames(s) && Marked(s.db.ledger, n)
    ensures i < s.listed && s.folder[i].name == n && s.folder[i].rows != [] && Flagged(s, i)
  {
    i :| 0 <= i < s.listed && s.folder[i].name == n && s.folder[i].rows != [];
  }

  /** The latest key is the last file's name or sorts after it. */
  lemma LatestIsNotEarlier(s: State, v: TableView, length: nat, latest: Option<string>)
    requires s.folder != [] && Frozen(s, v, length) && IsLatest(v.prefix, Join(v.pages), latest)
    ensures latest.Some? && DmsName(v.prefix, length, latest.value)
    ensures s.folder[|s.folder| - 1].name == latest.value || Before(s.folder[|s.folder| - 1].name, latest.value)
  {
    assert s.folder[|s.folder| - 1].name in Join(v.pages) && IsCdcKey(v.prefix, s.folder[|s.folder| - 1].name);
  }

  lemma MarkedIsLast(s: State, v: TableView, length: nat)
    requires DbOk(s) && LedgerOk(s) && s.folder != [] && Frozen(s, v, length) && ViewCaughtUp(v)
    ensures Covers(s, s.db.pos, |s.folder| - 1)
  {
    var latest :| IsLatest(v.prefix, Join(v.pages), latest) && TableCaughtUp(latest, v.ledger);
    var last := |s.folder| - 1;
    LatestIsNotEarlier(s, v, length, latest);
    var i := HitIsTheFile(s, v, length, latest.value);
    BeforeIsTotal(s.folder[i].name, s.folder[last].name);
    assert i == last;
    assert Flagged(s, i);
  }

  /** The table's prefix holds no change file beside the folder's. */
  predicate ListsOnly(folder: seq<File>, v: TableView) {
    forall k :: k in Join(v.pages) && IsCdcKey(v.prefix, k) ==> exists i :: 0 <= i < |folder| && folder[i].name == k
  }

  /** The other way the gate needs one thing more: when every file is done, it reports the table
      caught up exactly when there is no file or the last one holds a data row.  A file without
      a data row never gets a ledger row, so the gate waits for it for ever. */
  lemma CaughtUpOnceLastFileHasARow(s: State, steps: seq<Step>, v: TableView, length: nat)
    requires Init(s) && Legal(s, steps) && Frozen(Exec(s, steps), v, length)
    requires var e := Exec(s, steps);
             DoneCount(e.folder, e.db.pos.lastDone) == |e.folder| && ListsOnly(e.folder, v)
    ensures var e := Exec(s, steps);
            ViewCaughtUp(v) <==> e.folder == [] || e.folder[|e.folder| - 1].rows != []
  {
    InitHolds(s);
    Reached(s, steps);
    if Exec(s, steps).folder == [] {
      NothingIsCaughtUp(v);
    } else {
      LastIsLatest(Exec(s, steps), v);
      DoneFileIsMarked(Exec(s, steps), v, length);
    }
  }

  lemma NothingIsCaughtUp(v: TableView)
    requires ListsOnly([], v)
    ensures ViewCaughtUp(v)
  {
    assert IsLatest(v.prefix, Join(v.pages), None);
  }

  lemma DoneFileIsMarked(s: State, v: TableView, length: nat)
    requires DbOk(s) && LedgerOk(s) && s.folder != [] && Frozen(s, v, length)
    requires DoneCount(s.folder, s.db.pos.lastDone) == |s.folder|
    requires IsLatest(v.prefix, Join(v.pages), Some(s.folder[|s.folder| - 1].name))
    ensures ViewCaughtUp(v) <==> s.folder[|s.folder| - 1].rows != []
  {
    var last := |s.folder| - 1;
    if s.folder[last].rows != [] {
      assert Named(s, last);
    } else if ViewCaughtUp(v) {
      var latest :| IsLatest(v.prefix, Join(v.pages), latest) && TableCaughtUp(latest, v.ledger);
      LatestIsUnique(v.prefix, Join(v.pages), latest, Some(s.folder[last].name));
      var i := HitIsTheFile(s, v, length, s.folder[last].name);
      NamesDiffer(s, i, last);
    }
  }

  lemma LastIsLatest(s: State, v: TableView)
    requires Sorted(s.folder) && s.folder != []
    requires forall i :: 0 <= i < |s.folder| ==>
             s.folder[i].name in Join(v.pages) && IsCdcKey(v.prefix, s.folder[i].name)
    requires ListsOnly(s.folder, v)
    ensures IsLatest(v.prefix, Join(v.pages), Some(s.folder[|s.folder| - 1].name))
  {
    var keys, last := Join(v.pages), |s.folder| - 1;
    forall j | 0 <= j < |keys| && IsCdcKey(v.prefix, keys[j])
      ensures keys[j] == s.folder[last].name || Before(keys[j], s.folder[last].name)
    {
      assert keys[j] in keys;
      var i :| 0 <= i < |s.folder| && s.folder[i].name == keys[j];
    }
  }
}
