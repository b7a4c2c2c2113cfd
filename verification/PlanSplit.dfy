/**
 The fan-out planner (lambdas/plan_split.py): it splits a task's tables into load/validate groups
 and CDC forks.
 */
module PlanSplit {
  import opened Util
  import opened Lpt
  import opened PlanRules

  const NAME_MAX := 255

  predicate IsBig(lim: Limits, e: Entry) {
    e.rows >= lim.bigRows || e.numFiles >= lim.fanoutFiles || e.totalBytes >= lim.bigBytes
  }

  // ----- selecting and sorting -------------------------------------------------------------

  function Select(entries: seq<Entry>, p: Entry -> bool): seq<Entry> {
    if entries == [] then []
    else
      var e := entries[|entries| - 1];
      Select(entries[..|entries| - 1], p) + if p(e) then [e] else []
  }

  /** Python's stable `sorted`: an entry goes behind those it may not precede. */
  function Insert(sorted: seq<Entry>, e: Entry, le: (Entry, Entry) -> bool): seq<Entry> {
    if sorted == [] || le(sorted[|sorted| - 1], e) then sorted + [e]
    else Insert(sorted[..|sorted| - 1], e, le) + [sorted[|sorted| - 1]]
  }

  function SortBy(entries: seq<Entry>, le: (Entry, Entry) -> bool): seq<Entry> {
    if entries == [] then [] else Insert(SortBy(entries[..|entries| - 1], le), entries[|entries| - 1], le)
  }

  predicate Ordered(s: seq<Entry>, le: (Entry, Entry) -> bool) {
    forall i, j :: 0 <= i < j < |s| ==> le(s[i], s[j])
  }

  ghost predicate TotalOrder(le: (Entry, Entry) -> bool) {
    && (forall a, b :: le(a, b) || le(b, a))
    && (forall a, b, c :: le(a, b) && le(b, c) ==> le(a, c))
  }

  lemma {:induction false} InsertAdds(s: seq<Entry>, e: Entry, le: (Entry, Entry) -> bool)
    ensures multiset(Insert(s, e, le)) == multiset(s) + multiset{e}
  {
    if s != [] && !le(s[|s| - 1], e) {
      InsertAdds(s[..|s| - 1], e, le);
      assert s == s[..|s| - 1] + [s[|s| - 1]];
    }
  }

  lemma {:induction false} InsertHas(s: seq<Entry>, e: Entry, le: (Entry, Entry) -> bool)
    ensures forall x :: x in Insert(s, e, le) ==> x in s || x == e
  {
    if s != [] && !le(s[|s| - 1], e) {
      InsertHas(s[..|s| - 1], e, le);
    }
  }

  lemma {:induction false} InsertOrders(s: seq<Entry>, e: Entry, le: (Entry, Entry) -> bool)
    requires TotalOrder(le) && Ordered(s, le)
    ensures Ordered(Insert(s, e, le), le)
  {
    if s != [] {
      var front, last := s[..|s| - 1], s[|s| - 1];
      if le(last, e) {
        forall i | 0 <= i < |s| ensures le(s[i], e) {
          assert i < |s| - 1 ==> le(s[i], last);
        }
      } else {
        InsertOrders(front, e, le);
        InsertHas(front, e, le);
        var r := Insert(front, e, le);
        forall i | 0 <= i < |r| ensures le(r[i], last) {
          assert r[i] in r;
        }
      }
    }
  }

  lemma {:induction false} SortByPermutes(entries: seq<Entry>, le: (Entry, Entry) -> bool)
    ensures multiset(SortBy(entries, le)) == multiset(entries)
  {
    if entries != [] {
      var front, last := entries[..|entries| - 1], entries[|entries| - 1];
      SortByPermutes(front, le);
      InsertAdds(SortBy(front, le), last, le);
      assert entries == front + [last];
      assert multiset(front + [last]) == multiset(front) + multiset{last};
    }
  }

  lemma {:induction false} SortByOrders(entries: seq<Entry>, le: (Entry, Entry) -> bool)
    requires TotalOrder(le)
    ensures Ordered(SortBy(entries, le), le)
  {
    if entries != [] {
      SortByOrders(entries[..|entries| - 1], le);
      InsertOrders(SortBy(entries[..|entries| - 1], le), entries[|entries| - 1], le);
    }
  }

  lemma SortByKeeps(entries: seq<Entry>, le: (Entry, Entry) -> bool)
    requires TotalOrder(le)
    ensures Ordered(SortBy(entries, le), le) && multiset(SortBy(entries, le)) == multiset(entries)
  {
    SortByPermutes(entries, le);
    SortByOrders(entries, le);
  }

  lemma {:induction false} SortByHas(entries: seq<Entry>, le: (Entry, Entry) -> bool)
    requires TotalOrder(le)
    ensures |SortBy(entries, le)| == |entries|
    ensures forall e :: e in SortBy(entries, le) <==> e in entries
  {
    SortByKeeps(entries, le);
    assert |multiset(SortBy(entries, le))| == |multiset(entries)|;
    forall e ensures e in SortBy(entries, le) <==> e in entries {
      assert e in multiset(SortBy(entries, le)) <==> e in multiset(entries);
    }
  }

  function Heavier(): (Entry, Entry) -> bool { (a: Entry, b: Entry) => a.rows >= b.rows }

  function ByLabel(): (Entry, Entry) -> bool {
    (a: Entry, b: Entry) => a.Label() == b.Label() || Before(a.Label(), b.Label())
  }

  lemma OrdersAreTotal()
    ensures TotalOrder(Heavier()) && TotalOrder(ByLabel())
  {
    forall a: Entry, b: Entry ensures ByLabel()(a, b) || ByLabel()(b, a) {
      BeforeIsTotal(a.Label(), b.Label());
    }
    forall a: Entry, b: Entry, c: Entry | ByLabel()(a, b) && ByLabel()(b, c) ensures ByLabel()(a, c) {
      if Before(a.Label(), b.Label()) && Before(b.Label(), c.Label()) {
        BeforeIsTransitive(a.Label(), b.Label(), c.Label());
      }
    }
  }

  function Not(p: Entry -> bool): Entry -> bool { e => !p(e) }

  lemma Cancel<T>(a: multiset<T>, b: multiset<T>, e: T)
    requires a + multiset{e} == b + multiset{e}
    ensures a == b
  {
    forall x ensures a[x] == b[x] {
      assert (a + multiset{e})[x] == (b + multiset{e})[x];
    }
  }

  lemma SelectSnoc(front: seq<Entry>, e: Entry, p: Entry -> bool)
    ensures p(e) ==> multiset(Select(front + [e], p)) == multiset(Select(front, p)) + multiset{e}
    ensures !p(e) ==> Select(front + [e], p) == Select(front, p)
  {
    assert (front + [e])[..|front|] == front;
  }

  lemma {:induction false} SelectCounts(entries: seq<Entry>, p: Entry -> bool, x: Entry)
    ensures multiset(Select(entries, p))[x] == if p(x) then multiset(entries)[x] else 0
  {
    if entries != [] {
      var front, e := entries[..|entries| - 1], entries[|entries| - 1];
      SelectCounts(front, p, x);
      SelectSnoc(front, e, p);
      assert entries == front + [e];
    }
  }

  /** Each entry is selected by `p` or by its negation. */
  lemma SelectSplits(entries: seq<Entry>, p: Entry -> bool)
    ensures multiset(Select(entries, p)) + multiset(Select(entries, Not(p))) == multiset(entries)
  {
    forall x
      ensures multiset(Select(entries, p))[x] + multiset(Select(entries, Not(p)))[x] == multiset(entries)[x]
    {
      SelectCounts(entries, p, x);
      SelectCounts(entries, Not(p), x);
    }
  }

  lemma {:induction false} SelectOnly(entries: seq<Entry>, p: Entry -> bool)
    ensures forall e :: e in Select(entries, p) <==> e in entries && p(e)
  {
    if entries != [] {
      var front, last := entries[..|entries| - 1], entries[|entries| - 1];
      SelectOnly(front, p);
      assert forall e :: e in entries <==> e in front || e == last;
    }
  }

  // ----- bin packing -----------------------------------------------------------------------

  lemma {:induction false} FlatSame(a: seq<seq<Entry>>, b: seq<seq<Entry>>, n: nat)
    requires n <= |a| && n <= |b| && forall i :: 0 <= i < n ==> a[i] == b[i]
    ensures FlatTo(a, n) == FlatTo(b, n)
  {
    if n > 0 {
      FlatSame(a, b, n - 1);
    }
  }

  lemma RowsSnoc(s: seq<Entry>, e: Entry)
    ensures Rows(s + [e]) == Rows(s) + e.rows
  {
    assert Weights(s + [e])[..|s|] == Weights(s);
  }

  lemma {:induction false} FlatUpdate(groups: seq<seq<Entry>>, j: nat, e: Entry, n: nat)
    requires j < n <= |groups|
    ensures multiset(FlatTo(groups[j := groups[j] + [e]], n)) == multiset(FlatTo(groups, n)) + multiset{e}
  {
    var groups' := groups[j := groups[j] + [e]];
    if j == n - 1 {
      FlatSame(groups, groups', j);
    } else {
      FlatUpdate(groups, j, e, n - 1);
    }
  }

  lemma {:induction false} FlatEmpty(groups: seq<seq<Entry>>, n: nat)
    requires n <= |groups| && forall i :: 0 <= i < n ==> groups[i] == []
    ensures FlatTo(groups, n) == []
  {
    if n > 0 {
      FlatEmpty(groups, n - 1);
    }
  }

  ghost predicate PackedTables(s: seq<Entry>, buckets: seq<seq<Entry>>) {
    multiset(Flat(buckets)) == multiset(s)
  }

  ghost predicate PackedRows(buckets: seq<seq<Entry>>, bucketRows: seq<nat>) {
    |bucketRows| == |buckets| && forall b :: 0 <= b < |buckets| ==> Rows(buckets[b]) == bucketRows[b]
  }

  ghost function GreedyLoads(s: seq<Entry>, m: nat): (r: seq<nat>)
    requires m > 0
    ensures |r| == m
  {
    Loads(Weights(s), Greedy(Weights(s), m), m)
  }

  lemma PackOne(s: seq<Entry>, buckets: seq<seq<Entry>>, bucketRows: seq<nat>, j: nat, t: Entry)
    requires PackedTables(s, buckets) && PackedRows(buckets, bucketRows) && j < |buckets|
    ensures PackedTables(s + [t], buckets[j := buckets[j] + [t]])
    ensures PackedRows(buckets[j := buckets[j] + [t]], bucketRows[j := bucketRows[j] + t.rows])
  {
    FlatUpdate(buckets, j, t, |buckets|);
    RowsSnoc(buckets[j], t);
  }

  lemma WeightsSnoc(s: seq<Entry>, t: Entry)
    ensures Weights(s + [t]) == Weights(s) + [t.rows]
  {
  }

  lemma LoadsSnoc(s: seq<Entry>, m: nat, t: Entry, loads: seq<nat>, j: nat)
    requires m > 0 && loads == GreedyLoads(s, m) && j == ArgMin(loads)
    ensures GreedyLoads(s + [t], m) == loads[j := loads[j] + t.rows]
  {
    WeightsSnoc(s, t);
    var w, w' := Weights(s), Weights(s + [t]);
    GreedyLoadsSnoc(w, m, t.rows, loads, j);
    assert Loads(w', Greedy(w', m), m) == loads[j := loads[j] + t.rows];
  }

  /** The tables packed so far, by the greedy rule. */
  ghost predicate Packs(s: seq<Entry>, buckets: seq<seq<Entry>>, bucketRows: seq<nat>) {
    && buckets != [] && bucketRows == GreedyLoads(s, |buckets|)
    && PackedTables(s, buckets) && PackedRows(buckets, bucketRows)
  }

  lemma PackNext(s: seq<Entry>, t: Entry, buckets: seq<seq<Entry>>, bucketRows: seq<nat>, j: nat)
    requires Packs(s, buckets, bucketRows) && j == ArgMin(bucketRows)
    ensures Packs(s + [t], buckets[j := buckets[j] + [t]], bucketRows[j := bucketRows[j] + t.rows])
  {
    LoadsSnoc(s, |buckets|, t, bucketRows, j);
    PackOne(s, buckets, bucketRows, j, t);
  }

  lemma PackedSmall(small: seq<Entry>, buckets: seq<seq<Entry>>, bucketRows: seq<nat>)
    requires Packs(SortBy(small, Heavier()), buckets, bucketRows)
    ensures multiset(Flat(buckets)) == multiset(small)
    ensures PackedRows(buckets, GreedyLoads(SortBy(small, Heavier()), |buckets|))
  {
    OrdersAreTotal();
    SortByKeeps(small, Heavier());
  }

  method NoBuckets(nBuckets: nat) returns (buckets: seq<seq<Entry>>, bucketRows: seq<nat>)
    requires nBuckets > 0
    ensures |buckets| == nBuckets && Packs([], buckets, bucketRows)
  {
    buckets, bucketRows := seq(nBuckets, _ => []), seq(nBuckets, _ => 0);
    FlatEmpty(buckets, nBuckets);
  }

  /** One more table, into the bucket with the fewest rows so far. */
  method PackInto(buckets: seq<seq<Entry>>, bucketRows: seq<nat>, t: Entry, ghost s: seq<Entry>)
    returns (b: seq<seq<Entry>>, rows: seq<nat>)
    requires Packs(s, buckets, bucketRows)
    ensures Packs(s + [t], b, rows) && |b| == |buckets|
  {
    var j := ArgMin(bucketRows);
    PackNext(s, t, buckets, bucketRows, j);
    b, rows := buckets[j := buckets[j] + [t]], bucketRows[j := bucketRows[j] + t.rows];
  }

  /** Heaviest table first, always into the bucket with the fewest rows so far. */
  method PackSmall(small: seq<Entry>, nBuckets: nat) returns (buckets: seq<seq<Entry>>)
    requires nBuckets > 0
    ensures |buckets| == nBuckets && multiset(Flat(buckets)) == multiset(small)
    ensures PackedRows(buckets, GreedyLoads(SortBy(small, Heavier()), nBuckets))
  {
    var sorted := SortBy(small, Heavier());
    var bucketRows: seq<nat>;
    buckets, bucketRows := NoBuckets(nBuckets);
    ghost var done: seq<Entry> := [];
    for i := 0 to |sorted|
      invariant done == sorted[..i] && |buckets| == nBuckets && Packs(done, buckets, bucketRows)
    {
      buckets, bucketRows := PackInto(buckets, bucketRows, sorted[i], done);
      done := done + [sorted[i]];
    }
    assert done == sorted;
    PackedSmall(small, buckets, bucketRows);
  }

  lemma {:induction false} NoTablesNoRows(groups: seq<seq<Entry>>)
    requires multiset(Flat(groups)) == multiset{}
    ensures forall b :: 0 <= b < |groups| ==> Rows(groups[b]) == 0
  {
    forall b | 0 <= b < |groups| ensures Rows(groups[b]) == 0 {
      if groups[b] != [] {
        FlatHas(groups, b, 0, |groups|);
      }
    }
  }

  /** Any grouping of the same tables is an assignment of the sorted list. */
  lemma {:induction false} GroupingIsAssignment(s: seq<Entry>, groups: seq<seq<Entry>>) returns (o: seq<nat>)
    requires multiset(Flat(groups)) == multiset(s)
    ensures Assigns(o, |s|, |groups|)
    ensures forall b :: 0 <= b < |groups| ==> Load(Weights(s), o, b) == Rows(groups[b])
  {
    if s == [] {
      o := [];
      NoTablesNoRows(groups);
    } else {
      var front, e := s[..|s| - 1], s[|s| - 1];
      assert s == front + [e];
      var b, fewer := TakeOut(front, groups, e);
      var o0 := GroupingIsAssignment(front, fewer);
      o := o0 + [b];
      assert Weights(s)[..|front|] == Weights(front);
      assert o[..|front|] == o0;
    }
  }

  lemma TakeOut(front: seq<Entry>, groups: seq<seq<Entry>>, e: Entry) returns (b: nat, fewer: seq<seq<Entry>>)
    requires multiset(Flat(groups)) == multiset(front + [e])
    ensures |fewer| == |groups| && b < |groups| && multiset(Flat(fewer)) == multiset(front)
    ensures Rows(groups[b]) == Rows(fewer[b]) + e.rows
    ensures forall c :: 0 <= c < |groups| && c != b ==> fewer[c] == groups[c]
  {
    assert e in multiset(front + [e]);
    var i;
    b, i := FindIn(groups, e, |groups|);
    fewer := groups[b := groups[b][..i] + groups[b][i + 1..]];
    FlatRemove(groups, b, i, |groups|);
    assert multiset(front + [e]) == multiset(front) + multiset{e};
    Cancel(multiset(Flat(fewer)), multiset(front), e);
    RowsRemove(groups[b], i);
  }

  lemma {:induction false} FlatHas(groups: seq<seq<Entry>>, b: nat, i: nat, n: nat)
    requires b < n <= |groups| && i < |groups[b]|
    ensures groups[b][i] in multiset(FlatTo(groups, n))
  {
    if b < n - 1 {
      FlatHas(groups, b, i, n - 1);
    }
  }

  lemma {:induction false} FindIn(groups: seq<seq<Entry>>, e: Entry, n: nat) returns (b: nat, i: nat)
    requires n <= |groups| && e in multiset(FlatTo(groups, n))
    ensures b < n && i < |groups[b]| && groups[b][i] == e
  {
    if e in groups[n - 1] {
      b := n - 1;
      i :| 0 <= i < |groups[b]| && groups[b][i] == e;
    } else {
      b, i := FindIn(groups, e, n - 1);
    }
  }

  lemma CutOne(s: seq<Entry>, i: nat)
    requires i < |s|
    ensures multiset(s) == multiset(s[..i] + s[i + 1..]) + multiset{s[i]}
  {
    assert s == s[..i] + [s[i]] + s[i + 1..];
  }

  lemma {:induction false} FlatRemove(groups: seq<seq<Entry>>, b: nat, i: nat, n: nat)
    requires b < n <= |groups| && i < |groups[b]|
    ensures multiset(FlatTo(groups, n))
            == multiset(FlatTo(groups[b := groups[b][..i] + groups[b][i + 1..]], n)) + multiset{groups[b][i]}
  {
    var groups' := groups[b := groups[b][..i] + groups[b][i + 1..]];
    if b == n - 1 {
      FlatSame(groups, groups', b);
      CutOne(groups[b], i);
    } else {
      FlatRemove(groups, b, i, n - 1);
    }
  }

  lemma {:induction false} RowsConcat(a: seq<Entry>, b: seq<Entry>)
    ensures Rows(a + b) == Rows(a) + Rows(b)
  {
    if b == [] {
      assert a + b == a;
    } else {
      assert a + b == (a + b[..|b| - 1]) + [b[|b| - 1]];
      RowsConcat(a, b[..|b| - 1]);
      RowsSnoc(a + b[..|b| - 1], b[|b| - 1]);
      assert b == b[..|b| - 1] + [b[|b| - 1]];
      RowsSnoc(b[..|b| - 1], b[|b| - 1]);
    }
  }

  lemma RowsRemove(s: seq<Entry>, i: nat)
    requires i < |s|
    ensures Rows(s) == Rows(s[..i] + s[i + 1..]) + s[i].rows
  {
    assert s == (s[..i] + [s[i]]) + s[i + 1..];
    RowsConcat(s[..i] + [s[i]], s[i + 1..]);
    RowsSnoc(s[..i], s[i]);
    RowsConcat(s[..i], s[i + 1..]);
  }

  /** No bucket of the plan has more rows than (4/3 - 1/(3m)) times the fullest group of any other
      way to spread the same small tables over `m` groups. */
  lemma PackingIsNearOptimal(small: seq<Entry>, m: nat, buckets: seq<seq<Entry>>, other: seq<seq<Entry>>, fullest: nat)
    requires m > 0 && |buckets| == m && PackedRows(buckets, GreedyLoads(SortBy(small, Heavier()), m))
    requires |other| == m && multiset(Flat(other)) == multiset(small)
    requires forall b :: 0 <= b < m ==> Rows(other[b]) <= fullest
    ensures forall b :: 0 <= b < m ==> 3 * m * Rows(buckets[b]) <= (4 * m - 1) * fullest
  {
    var sorted := SortBy(small, Heavier());
    OrdersAreTotal();
    SortByKeeps(small, Heavier());
    var w := Weights(sorted);
    assert Descending(w) by {
      forall i, j | 0 <= i < j < |w| ensures w[i] >= w[j] {
        assert Heavier()(sorted[i], sorted[j]);
      }
    }
    var o := GroupingIsAssignment(sorted, other);
    assert Within(w, o, m, fullest);
    GreedyIsNearOptimal(w, m, o, fullest);
  }

  // ----- connection budget -----------------------------------------------------------------

  /** How many loaders run at once, and how many writers each gets. */
  function Pacing(lim: Limits, groupCount: nat): (r: (int, int)) {
    var loaders := Max(1, Min(groupCount, Min(lim.mapMaxConc, lim.connBudget / Max(1, lim.minWriters))));
    (loaders, Max(lim.minWriters, Min(lim.maxWriters, lim.connBudget / Max(1, loaders))))
  }

  lemma QuotientFits(budget: int, d: int, k: int)
    requires d >= 1 && k <= budget / d
    ensures k * d <= budget
  {
    var q := budget / d;
    assert budget == q * d + budget % d;
    ProductGrows(k, q, d);
  }

  lemma QuotientAtLeast(budget: int, d: int, k: int)
    requires d >= 1 && k * d <= budget
    ensures k <= budget / d
  {
    var q := budget / d;
    assert budget == q * d + budget % d;
    if k > q {
      ProductGrows(q + 1, k, d);
    }
  }

  lemma ProductGrows(a: int, b: int, d: int)
    requires a <= b && d >= 0
    ensures a * d <= b * d
  {
  }

  /** The loaders that run at once never open more connections than the budget, and each keeps
      within its writer limits, exactly when the budget covers one loader's minimum. */
  lemma PacingKeepsTheBudget(lim: Limits, groupCount: nat)
    requires 1 <= lim.minWriters <= lim.maxWriters
    ensures var (loaders, writers) := Pacing(lim, groupCount);
            && 1 <= loaders <= Max(1, groupCount) && lim.minWriters <= writers <= lim.maxWriters
            && (loaders * writers <= lim.connBudget <==> lim.connBudget >= lim.minWriters)
  {
    var (loaders, writers) := Pacing(lim, groupCount);
    if lim.connBudget >= lim.minWriters {
      AmpleBudget(lim.connBudget, lim.minWriters, lim.maxWriters, loaders, writers);
    } else {
      TimesGrows(writers, 1, loaders);
    }
  }

  /** And both are as large as that allows: no more loaders could run with the minimum of writers each,
      and no more writers could be given to these loaders. */
  lemma PacingIsMaximal(lim: Limits, groupCount: nat, k: int, v: int)
    requires 1 <= lim.minWriters <= lim.maxWriters
    requires 1 <= k <= groupCount && k <= lim.mapMaxConc && k * lim.minWriters <= lim.connBudget
    requires v <= lim.maxWriters && v * Pacing(lim, groupCount).0 <= lim.connBudget
    ensures k <= Pacing(lim, groupCount).0 && v <= Pacing(lim, groupCount).1
  {
    QuotientAtLeast(lim.connBudget, lim.minWriters, k);
    QuotientAtLeast(lim.connBudget, Pacing(lim, groupCount).0, v);
  }

  lemma LoadersArePaced(lim: Limits, groupCount: nat, loaders: int)
    requires loaders == Pacing(lim, groupCount).0
    ensures var each := Max(1, lim.minWriters);
            && 1 <= loaders
            && (loaders == 1
                || (loaders <= groupCount && loaders <= lim.mapMaxConc && loaders * each <= lim.connBudget))
            && (loaders >= groupCount || loaders >= lim.mapMaxConc || (loaders + 1) * each > lim.connBudget)
  {
    var each := Max(1, lim.minWriters);
    if loaders <= lim.connBudget / each {
      QuotientFits(lim.connBudget, each, loaders);
    }
    if (loaders + 1) * each <= lim.connBudget {
      QuotientAtLeast(lim.connBudget, each, loaders + 1);
    }
  }

  lemma WritersArePaced(lim: Limits, loaders: int, writers: int)
    requires 1 <= loaders && writers == Max(lim.minWriters, Min(lim.maxWriters, lim.connBudget / loaders))
    ensures lim.minWriters <= writers
    ensures writers == lim.minWriters || (writers <= lim.maxWriters && writers * loaders <= lim.connBudget)
    ensures writers >= lim.maxWriters || (writers + 1) * loaders > lim.connBudget
  {
    if writers <= lim.connBudget / loaders {
      QuotientFits(lim.connBudget, loaders, writers);
    }
    if (writers + 1) * loaders <= lim.connBudget {
      QuotientAtLeast(lim.connBudget, loaders, writers + 1);
    }
  }

  /** The pacing of the plan's loaders. */
  method Pace(lim: Limits, groupCount: nat) returns (loaders: int, writers: int)
    ensures Paced(lim, groupCount, loaders, writers)
  {
    var (l, w) := Pacing(lim, groupCount);
    LoadersArePaced(lim, groupCount, l);
    WritersArePaced(lim, l, w);
    loaders, writers := l, w;
  }

  lemma AmpleBudget(budget: int, minWriters: int, maxWriters: int, loaders: int, writers: int)
    requires 1 <= minWriters <= maxWriters && budget >= minWriters
    requires 1 <= loaders && (loaders == 1 || loaders <= budget / minWriters)
    requires writers == Max(minWriters, Min(maxWriters, budget / loaders))
    ensures minWriters <= writers <= maxWriters && loaders * writers <= budget
  {
    QuotientAtLeast(budget, minWriters, 1);
    QuotientFits(budget, minWriters, loaders);
    QuotientAtLeast(budget, loaders, minWriters);
    QuotientFits(budget, loaders, writers);
  }

  // ----- the plan --------------------------------------------------------------------------

  function IsComposite(): Entry -> bool { (e: Entry) => e.Composite() }

  function Oversized(lim: Limits): Entry -> bool { (e: Entry) => IsBig(lim, e) }

  function Composites(entries: seq<Entry>): seq<Entry> { Select(entries, IsComposite()) }

  function Normals(entries: seq<Entry>): seq<Entry> { Select(entries, Not(IsComposite())) }

  function Bigs(lim: Limits, entries: seq<Entry>): seq<Entry> { Select(Normals(entries), Oversized(lim)) }

  function Smalls(lim: Limits, entries: seq<Entry>): seq<Entry> { Select(Normals(entries), Not(Oversized(lim))) }

  function NBuckets(lim: Limits, nBig: nat): (n: nat)
    ensures n > 0
  {
    var remaining := Max(0, lim.maxGroups - nBig);
    if remaining > 0 then Max(1, remaining) else 1
  }

  lemma Regrouped(a: seq<Entry>, b: seq<Entry>, c: seq<Entry>)
    ensures (a + b) + c == a + (b + c)
  {
  }

  lemma TablesSnoc(groups: seq<Group>, g: Group)
    ensures Tables(groups + [g]) == Tables(groups) + g.tables
  {
    FlatSame(Manifests(groups), Manifests(groups + [g]), |groups|);
  }

  lemma BucketsAreNearOptimal(small: seq<Entry>, n: nat, buckets: seq<seq<Entry>>, b: nat)
    requires n > 0 && |buckets| == n && PackedRows(buckets, GreedyLoads(SortBy(small, Heavier()), n)) && b < n
    ensures NearOptimal(buckets[b], small, n)
  {
    forall other, fullest | Spread(other, small, n, fullest)
      ensures 3 * n * Rows(buckets[b]) <= (4 * n - 1) * fullest
    {
      PackingIsNearOptimal(small, n, buckets, other, fullest);
    }
  }

  ghost predicate SmallOk(g: Group, i: nat, small: seq<Entry>, n: nat) {
    && g.index == i && g.kind.Small? && g.tables != [] && NearOptimal(g.tables, small, n)
    && forall k :: 0 <= k < |g.tables| ==> g.tables[k] in small
  }

  ghost predicate SmallsOk(groups: seq<Group>, first: nat, small: seq<Entry>, n: nat) {
    forall i :: first <= i < |groups| ==> SmallOk(groups[i], i, small, n)
  }

  /** One group per big table. */
  method BigGroups(big: seq<Entry>) returns (groups: seq<Group>)
    ensures |groups| == |big| && forall i :: 0 <= i < |big| ==> groups[i] == Group(i, Big, [big[i]])
    ensures Tables(groups) == big
  {
    groups := [];
    for i := 0 to |big|
      invariant |groups| == i && forall k :: 0 <= k < i ==> groups[k] == Group(k, Big, [big[k]])
      invariant Tables(groups) == big[..i]
    {
      TablesSnoc(groups, Group(i, Big, [big[i]]));
      assert big[..i + 1] == big[..i] + [big[i]];
      groups := groups + [Group(i, Big, [big[i]])];
    }
    assert big[..|big|] == big;
  }

  predicate HaveRows(tables: seq<Entry>) { forall i :: 0 <= i < |tables| ==> tables[i].rows > 0 }

  lemma BucketIsSmall(small: seq<Entry>, n: nat, buckets: seq<seq<Entry>>, b: nat)
    requires |buckets| == n && b < n && multiset(Flat(buckets)) == multiset(small)
    ensures forall k :: 0 <= k < |buckets[b]| ==> buckets[b][k] in small
  {
    forall k | 0 <= k < |buckets[b]| ensures buckets[b][k] in small {
      FlatHas(buckets, b, k, n);
      assert buckets[b][k] in multiset(small);
    }
  }

  lemma BucketLoad(small: seq<Entry>, n: nat, buckets: seq<seq<Entry>>, b: nat)
    requires n > 0 && |buckets| == n && b < n && HaveRows(small)
    requires PackedRows(buckets, GreedyLoads(SortBy(small, Heavier()), n))
    ensures Rows(buckets[b]) > 0 <==> b < |small|
  {
    SortedHaveRows(small);
    GreedyOpensBuckets(Weights(SortBy(small, Heavier())), n);
  }

  /** The tables of a bucket are small ones, and with rows in every table the first buckets are in use. */
  lemma BucketIsUsed(small: seq<Entry>, n: nat, buckets: seq<seq<Entry>>, b: nat)
    requires n > 0 && |buckets| == n && b < n && multiset(Flat(buckets)) == multiset(small)
    requires PackedRows(buckets, GreedyLoads(SortBy(small, Heavier()), n))
    ensures forall k :: 0 <= k < |buckets[b]| ==> buckets[b][k] in small
    ensures HaveRows(small) ==> (buckets[b] != [] <==> b < |small|)
  {
    BucketIsSmall(small, n, buckets, b);
    if HaveRows(small) {
      BucketLoad(small, n, buckets, b);
      RowsOrNone(buckets[b]);
    }
  }

  lemma SortedHaveRows(small: seq<Entry>)
    requires HaveRows(small)
    ensures |SortBy(small, Heavier())| == |small|
    ensures var w := Weights(SortBy(small, Heavier())); forall i :: 0 <= i < |w| ==> w[i] > 0
  {
    OrdersAreTotal();
    SortByHas(small, Heavier());
    var sorted := SortBy(small, Heavier());
    forall i | 0 <= i < |sorted| ensures sorted[i].rows > 0 {
      assert sorted[i] in sorted && sorted[i] in small;
    }
  }

  lemma RowsOrNone(s: seq<Entry>)
    requires HaveRows(s)
    ensures Rows(s) > 0 <==> s != []
  {
    if s != [] {
      assert Weights(s)[|s| - 1] > 0;
    }
  }

  /** The groups after the first `b` bins. */
  ghost predicate Binned(all: seq<Group>, groups: seq<Group>, buckets: seq<seq<Entry>>, b: nat, small: seq<Entry>,
                         n: nat)
    requires b <= |buckets|
  {
    && groups <= all && |all| <= |groups| + b
    && (HaveRows(small) ==> |all| == |groups| + Min(b, |small|))
    && SmallsOk(all, |groups|, small, n)
    && Tables(all) == Tables(groups) + FlatTo(buckets, b)
  }

  lemma BinNext(all: seq<Group>, groups: seq<Group>, buckets: seq<seq<Entry>>, b: nat, small: seq<Entry>, n: nat)
    requires b < |buckets| && buckets[b] != [] && Binned(all, groups, buckets, b, small, n)
    requires NearOptimal(buckets[b], small, n) && forall k :: 0 <= k < |buckets[b]| ==> buckets[b][k] in small
    requires HaveRows(small) ==> b < |small|
    ensures Binned(all + [Group(|all|, Small, buckets[b])], groups, buckets, b + 1, small, n)
  {
    var g := Group(|all|, Small, buckets[b]);
    TablesSnoc(all, g);
    Regrouped(Tables(groups), FlatTo(buckets, b), buckets[b]);
    assert SmallOk(g, |all|, small, n);
  }

  lemma BinSkip(all: seq<Group>, groups: seq<Group>, buckets: seq<seq<Entry>>, b: nat, small: seq<Entry>, n: nat)
    requires b < |buckets| && buckets[b] == [] && Binned(all, groups, buckets, b, small, n)
    requires HaveRows(small) ==> b >= |small|
    ensures Binned(all, groups, buckets, b + 1, small, n)
  {
    assert FlatTo(buckets, b + 1) == FlatTo(buckets, b);
  }

  /** Then the non-empty bins of the small tables. */
  method SmallGroups(small: seq<Entry>, n: nat, groups: seq<Group>) returns (all: seq<Group>)
    requires n > 0
    ensures groups <= all && |all| <= |groups| + n && (small == [] ==> all == groups)
    ensures HaveRows(small) ==> |all| == |groups| + Min(n, |small|)
    ensures SmallsOk(all, |groups|, small, n)
    ensures multiset(Tables(all)) == multiset(Tables(groups)) + multiset(small)
  {
    all := groups;
    if small != [] {
      var buckets := PackSmall(small, n);
      for b := 0 to n
        invariant Binned(all, groups, buckets, b, small, n)
      {
        BucketIsUsed(small, n, buckets, b);
        if buckets[b] != [] {
          BucketsAreNearOptimal(small, n, buckets, b);
          BinNext(all, groups, buckets, b, small, n);
          all := all + [Group(|all|, Small, buckets[b])];
        } else {
          BinSkip(all, groups, buckets, b, small, n);
        }
      }
    }
  }

  predicate DistinctLabels(entries: seq<Entry>) {
    forall i, j :: 0 <= i < j < |entries| ==> entries[i].Label() != entries[j].Label()
  }

  /** One fork per table, each scoped to its own table. */
  predicate ForksOf(forks: seq<Fork>, kind: ForkKind, tables: seq<Entry>) {
    |forks| == |tables| && forall i :: 0 <= i < |tables| ==> forks[i] == Fork(kind, tables[i], [tables[i]])
  }

  predicate CompositeGroups(all: seq<Group>, groups: seq<Group>, tables: seq<Entry>) {
    && |all| == |groups| + |tables| && groups <= all && Tables(all) == Tables(groups) + tables
    && forall i :: |groups| <= i < |all| ==> all[i] == Group(i, CompositeFork, [tables[i - |groups|]])
  }

  /** The forks of the composite tables, by label, each a group of its own. */
  method CompositeForks(composites: seq<Entry>, groups: seq<Group>) returns (forks: seq<Fork>, all: seq<Group>)
    requires forall i :: 0 <= i < |groups| ==> groups[i].index == i
    ensures ForksOf(forks, Ck, SortBy(composites, ByLabel()))
    ensures CompositeGroups(all, groups, SortBy(composites, ByLabel()))
  {
    var sorted := SortBy(composites, ByLabel());
    forks, all := [], groups;
    for i := 0 to |sorted|
      invariant ForksOf(forks, Ck, sorted[..i]) && CompositeGroups(all, groups, sorted[..i])
    {
      forks := forks + [Fork(Ck, sorted[i], [sorted[i]])];
      TablesSnoc(all, Group(|all|, CompositeFork, [sorted[i]]));
      assert sorted[..i + 1] == sorted[..i] + [sorted[i]];
      all := all + [Group(|all|, CompositeFork, [sorted[i]])];
    }
    assert sorted[..|sorted|] == sorted;
  }

  function Labels(s: seq<Entry>): seq<string> { seq(|s|, i requires 0 <= i < |s| => s[i].Label()) }

  /** The group that holds exactly the table of this name: its manifest scopes the CDC job. */
  method FindBigGroup(groups: seq<Group>, name: string) returns (g: Option<nat>)
    ensures g.Some? ==> g.value < |groups| && groups[g.value].kind.Big? && Labels(groups[g.value].tables) == [name]
    ensures g.None? ==> forall i :: 0 <= i < |groups| && groups[i].kind.Big? ==> Labels(groups[i].tables) != [name]
  {
    for i := 0 to |groups|
      invariant forall k :: 0 <= k < i && groups[k].kind.Big? ==> Labels(groups[k].tables) != [name]
    {
      if groups[i].kind.Big? && Labels(groups[i].tables) == [name] {
        return Some(i);
      }
    }
    g := None;
  }

  /** The manifest that scopes a big table's CDC job: its own group's, or a new one. */
  method ScopeOf(big: seq<Entry>, groups: seq<Group>, e: Entry) returns (tables: seq<Entry>)
    requires DistinctLabels(big) && |big| <= |groups| && e in big
    requires forall i :: 0 <= i < |big| ==> groups[i] == Group(i, Big, [big[i]])
    requires forall i :: |big| <= i < |groups| ==> !groups[i].kind.Big?
    ensures tables == [e]
  {
    var g := FindBigGroup(groups, e.Label());
    BigGroupIsOwn(big, groups, e, g);
    tables := if g.Some? then groups[g.value].tables else [e];
  }

  /** The first `cap` big tables, by label, each get a CDC fork; the others stay on the main job. */
  method BigForks(big: seq<Entry>, groups: seq<Group>, cap: int) returns (forks: seq<Fork>, overflow: seq<string>)
    requires DistinctLabels(big) && |big| <= |groups|
    requires forall i :: 0 <= i < |big| ==> groups[i] == Group(i, Big, [big[i]])
    requires forall i :: |big| <= i < |groups| ==> !groups[i].kind.Big?
    ensures var sorted, n := SortBy(big, ByLabel()), Max(0, Min(cap, |big|));
            |sorted| == |big| && ForksOf(forks, Bg, sorted[..n]) && overflow == Labels(sorted[n..])
  {
    var sorted := SortBy(big, ByLabel());
    OrdersAreTotal();
    SortByHas(big, ByLabel());
    ghost var n := Max(0, Min(cap, |big|));
    forks, overflow := [], [];
    for i := 0 to |sorted|
      invariant |forks| == Min(i, n) && forall k :: 0 <= k < |forks| ==> forks[k] == Fork(Bg, sorted[k], [sorted[k]])
      invariant |overflow| == i - |forks|
      invariant forall k :: 0 <= k < |overflow| ==> overflow[k] == sorted[n + k].Label()
    {
      if |forks| >= cap {
        overflow := overflow + [sorted[i].Label()];
      } else {
        var scope := ScopeOf(big, groups, sorted[i]);
        forks := forks + [Fork(Bg, sorted[i], scope)];
      }
    }
    OverflowIs(sorted, n, overflow);
  }

  lemma OverflowIs(sorted: seq<Entry>, n: nat, overflow: seq<string>)
    requires n <= |sorted| && |overflow| == |sorted| - n
    requires forall k :: 0 <= k < |overflow| ==> overflow[k] == sorted[n + k].Label()
    ensures overflow == Labels(sorted[n..])
  {
  }

  lemma BigGroupIsOwn(big: seq<Entry>, groups: seq<Group>, e: Entry, g: Option<nat>)
    requires DistinctLabels(big) && |big| <= |groups| && e in big
    requires forall i :: 0 <= i < |big| ==> groups[i] == Group(i, Big, [big[i]])
    requires forall i :: |big| <= i < |groups| ==> !groups[i].kind.Big?
    requires g.Some? ==>
               g.value < |groups| && groups[g.value].kind.Big? && Labels(groups[g.value].tables) == [e.Label()]
    ensures g.Some? ==> groups[g.value].tables == [e]
  {
    var i :| 0 <= i < |big| && big[i] == e;
    if g.Some? {
      assert Labels(groups[g.value].tables)[0] == big[g.value].Label();
    }
  }

  // ----- owners ----------------------------------------------------------------------------

  const MAIN := "main"

  function OwnerName(kind: ForkKind, slug: string -> string, name: string): string {
    (if kind.Ck? then "ck-" else "bg-") + slug(name)
  }

  function OwnerOf(owners: map<string, string>, name: string): string {
    if name in owners then owners[name] else MAIN
  }

  predicate ForkFor(forks: seq<Fork>, name: string) {
    exists i :: 0 <= i < |forks| && forks[i].table.Label() == name
  }

  predicate DistinctForks(forks: seq<Fork>) {
    forall i, j :: 0 <= i < j < |forks| ==> forks[i].table.Label() != forks[j].table.Label()
  }

  /** The owner of a forked table is its fork; every other table has no entry: the main job. */
  predicate OwnersOk(forks: seq<Fork>, slug: string -> string, owners: map<string, string>) {
    && (forall i :: 0 <= i < |forks| ==>
          forks[i].table.Label() in owners
          && owners[forks[i].table.Label()] == OwnerName(forks[i].kind, slug, forks[i].table.Label()))
    && (forall name :: name in owners ==> ForkFor(forks, name))
  }

  lemma OwnersSnoc(forks: seq<Fork>, i: nat, slug: string -> string, owners: map<string, string>)
    requires DistinctForks(forks) && i < |forks| && OwnersOk(forks[..i], slug, owners)
    ensures var name := forks[i].table.Label();
            OwnersOk(forks[..i + 1], slug, owners[name := OwnerName(forks[i].kind, slug, name)])
  {
    var name, more := forks[i].table.Label(), forks[..i + 1];
    forall other | ForkFor(forks[..i], other) || other == name ensures ForkFor(more, other) {
      if other == name {
        assert more[i].table.Label() == other;
      } else {
        var k :| 0 <= k < i && forks[..i][k].table.Label() == other;
        assert more[k].table.Label() == other;
      }
    }
    assert more == forks[..i] + [forks[i]];
  }

  lemma OwnersAreMeant(forks: seq<Fork>, slug: string -> string, owners: map<string, string>)
    requires OwnersOk(forks, slug, owners)
    ensures OwnersMean(forks, slug, owners)
  {
    assert forall x :: ForkFor(forks, x) <==> LabelOf(forks, x);
  }

  method IntendedOwners(forks: seq<Fork>, slug: string -> string) returns (owners: map<string, string>)
    requires DistinctForks(forks)
    ensures OwnersOk(forks, slug, owners)
  {
    owners := map[];
    for i := 0 to |forks|
      invariant OwnersOk(forks[..i], slug, owners)
    {
      var name := forks[i].table.Label();
      OwnersSnoc(forks, i, slug, owners);
      owners := owners[name := OwnerName(forks[i].kind, slug, name)];
    }
    assert forks[..|forks|] == forks;
  }

  // ----- job names -------------------------------------------------------------------------

  /** `slug.rsplit("-" + h8, 1)[0]`: what stands before the hash. */
  function Truncated(readable: string, budget: nat): string {
    var cut := TrimDashes(readable[..Min(budget, |readable|)]);
    if cut == [] then "t" else cut
  }

  function TrimDashes(s: string): (r: string)
    ensures |r| <= |s|
  {
    if s != [] && s[|s| - 1] == '-' then TrimDashes(s[..|s| - 1]) else s
  }

  /** `_fork_job_name`: prefix, readable part, hash, role, within Glue's name limit; `None` when
      even a truncated name cannot fit. */
  function ForkJobName(prefix: string, readable: string, hash: string, tail: string): (r: Option<string>)
    ensures r.Some? ==> |r.value| <= NAME_MAX
  {
    var keepTail := "-" + hash + tail;
    if |prefix| + |readable| + |keepTail| <= NAME_MAX then Some(prefix + readable + keepTail)
    else if NAME_MAX - |prefix| - |keepTail| < 1 then None
    else Some(prefix + Truncated(readable, NAME_MAX - |prefix| - |keepTail|) + keepTail)
  }

  /** Truncation never merges two forks: jobs of the same role with different hashes keep
      different names. */
  lemma ForkJobNamesDiffer(prefix: string, r1: string, r2: string, h1: string, h2: string, tail: string)
    requires |h1| == |h2| && h1 != h2
    requires ForkJobName(prefix, r1, h1, tail).Some? && ForkJobName(prefix, r2, h2, tail).Some?
    ensures ForkJobName(prefix, r1, h1, tail) != ForkJobName(prefix, r2, h2, tail)
  {
    var n1, n2 := ForkJobName(prefix, r1, h1, tail).value, ForkJobName(prefix, r2, h2, tail).value;
    HashIsKept(prefix, r1, h1, tail);
    HashIsKept(prefix, r2, h2, tail);
  }

  lemma HashIsKept(prefix: string, readable: string, hash: string, tail: string)
    requires ForkJobName(prefix, readable, hash, tail).Some?
    ensures var n := ForkJobName(prefix, readable, hash, tail).value;
            |n| >= |tail| + |hash| && n[|n| - |tail| - |hash|..|n| - |tail|] == hash
  {
    var n := ForkJobName(prefix, readable, hash, tail).value;
    var keepTail := "-" + hash + tail;
    assert keepTail[1..1 + |hash|] == hash;
    assert n[|n| - |keepTail|..] == keepTail;
    assert n[|n| - |keepTail|..][1..1 + |hash|] == n[|n| - |tail| - |hash|..|n| - |tail|];
  }

  /** A name cannot fit exactly when prefix, hash and role leave no character for the readable part. */
  lemma NameFitsExactly(prefix: string, readable: string, hash: string, tail: string)
    requires readable != []
    ensures ForkJobName(prefix, readable, hash, tail).Some? <==> |prefix| + 1 + |hash| + |tail| < NAME_MAX
  {
  }

  function Slug(nm: Naming): string -> string { (name: string) => nm.readable(name) + "-" + nm.hash(name) }

  function Prefix(nm: Naming, kind: ForkKind): string {
    nm.project + "-" + nm.suffix + "-" + (if kind.Ck? then "ck" else "bg") + "-"
  }

  /** The roles of a fork's jobs: a composite fork has its own load and validate jobs as well. */
  function Roles(lim: Limits, f: Fork): seq<string> {
    if f.kind.Bg? then ["cdc"]
    else [if IsBig(lim, f.table) then "load-big" else "load", "validate", "cdc"]
  }

  function JobNameOf(nm: Naming, f: Fork, role: string): Option<string> {
    ForkJobName(Prefix(nm, f.kind), nm.readable(f.table.Label()), nm.hash(f.table.Label()), "-" + role)
  }

  /** Every job of the fork gets a name. */
  predicate Nameable(lim: Limits, nm: Naming, f: Fork) {
    forall k :: 0 <= k < |Roles(lim, f)| ==> JobNameOf(nm, f, Roles(lim, f)[k]).Some?
  }

  lemma {:induction false} TrimmedAt(s: string) returns (k: nat)
    ensures k <= |s| && TrimDashes(s) == s[..k] && (forall i :: k <= i < |s| ==> s[i] == '-')
    ensures k > 0 ==> s[k - 1] != '-'
  {
    k := |s|;
    if s != [] && s[k - 1] == '-' {
      k := TrimmedAt(s[..k - 1]);
    }
  }

  lemma TruncatedIsPart(readable: string, room: nat)
    requires room < |readable|
    ensures ReadablePart(readable, room, Truncated(readable, room))
  {
    var k := TrimmedAt(readable[..room]);
    assert CutAt(readable, room, k, Truncated(readable, room));
  }

  /** A job's name, when there is one: it keeps Glue's limit and tells the job. */
  lemma JobNameMeans(nm: Naming, f: Fork, role: string)
    ensures JobNameOf(nm, f, role).Some? <==> NameFits(nm, f, role)
    ensures JobNameOf(nm, f, role).Some? ==>
              var name, room := JobNameOf(nm, f, role).value, 255 - NameFrame(nm, f, role);
              && |name| <= 255
              && exists part ::
                  JobName(nm, f, role, part, name) && ReadablePart(nm.readable(f.table.Label()), room, part)
  {
    var readable, hash := nm.readable(f.table.Label()), nm.hash(f.table.Label());
    var prefix, keepTail := Prefix(nm, f.kind), "-" + hash + ("-" + role);
    assert |prefix| + |keepTail| == NameFrame(nm, f, role);
    if JobNameOf(nm, f, role).Some? {
      var room := 255 - NameFrame(nm, f, role);
      var part := if |readable| <= room then readable else Truncated(readable, room);
      if |readable| > room {
        TruncatedIsPart(readable, room);
      }
      NameIsJobName(nm, f, role, part);
      assert JobNameOf(nm, f, role).value == prefix + part + keepTail;
    }
  }

  lemma NameIsJobName(nm: Naming, f: Fork, role: string, part: string)
    ensures JobName(nm, f, role, part,
                    Prefix(nm, f.kind) + part + ("-" + nm.hash(f.table.Label()) + ("-" + role)))
  {
    var infix := match f.kind case Ck => "-ck-" case Bg => "-bg-";
    assert Prefix(nm, f.kind) == nm.project + "-" + nm.suffix + infix;
  }

  lemma NameableMeans(lim: Limits, nm: Naming, f: Fork)
    ensures Nameable(lim, nm, f) <==> forall role :: JobRole(lim, f, role) ==> NameFits(nm, f, role)
  {
    var roles := Roles(lim, f);
    assert forall role :: JobRole(lim, f, role) <==> role in roles;
    forall role ensures JobNameOf(nm, f, role).Some? <==> NameFits(nm, f, role) {
      JobNameMeans(nm, f, role);
    }
    if Nameable(lim, nm, f) {
      forall role | JobRole(lim, f, role) ensures NameFits(nm, f, role) {
        var k :| 0 <= k < |roles| && roles[k] == role;
      }
    }
  }

  /** The forks in the order they are named; the first that cannot be named ends the plan. */
  method NameForks(lim: Limits, nm: Naming, forks: seq<Fork>) returns (bad: Option<nat>)
    ensures bad.None? <==> forall i :: 0 <= i < |forks| ==> Nameable(lim, nm, forks[i])
    ensures bad.Some? ==> bad.value < |forks| && !Nameable(lim, nm, forks[bad.value])
    ensures bad.None? <==> forall i, role :: 0 <= i < |forks| && JobRole(lim, forks[i], role) ==>
                             NameFits(nm, forks[i], role)
  {
    for i := 0 to |forks|
      invariant forall k :: 0 <= k < i ==> Nameable(lim, nm, forks[k])
    {
      NameableMeans(lim, nm, forks[i]);
      if !Nameable(lim, nm, forks[i]) {
        return Some(i);
      }
    }
    forall i | 0 <= i < |forks| ensures forall role :: JobRole(lim, forks[i], role) ==> NameFits(nm, forks[i], role) {
      NameableMeans(lim, nm, forks[i]);
    }
    bad := None;
  }

  // ----- the whole plan --------------------------------------------------------------------

  predicate ForkOk(f: Fork, lim: Limits, entries: seq<Entry>) {
    && f.table in entries && f.tables == [f.table]
    && (f.kind.Ck? <==> f.table.Composite())
    && (f.kind.Bg? ==> IsBig(lim, f.table))
  }

  ghost predicate GroupsOk(groups: seq<Group>, lim: Limits, entries: seq<Entry>) {
    forall i :: 0 <= i < |groups| ==> GroupOk(groups[i], i, lim, entries)
  }

  ghost predicate GroupOk(g: Group, i: nat, lim: Limits, entries: seq<Entry>) {
    var small, n := Smalls(lim, entries), NBuckets(lim, |Bigs(lim, entries)|);
    if g.kind.Small? then SmallOk(g, i, small, n) else g.index == i && |g.tables| == 1
  }

  /** Big, small and composite tables are a partition of the index. */
  lemma Partition(entries: seq<Entry>, lim: Limits)
    ensures multiset(Bigs(lim, entries)) + multiset(Smalls(lim, entries)) + multiset(Composites(entries))
            == multiset(entries)
  {
    SelectSplits(entries, IsComposite());
    SelectSplits(Normals(entries), Oversized(lim));
  }

  lemma {:induction false} OccursOnce(s: seq<Entry>, e: Entry)
    requires DistinctLabels(s)
    ensures multiset(s)[e] <= 1
  {
    if s != [] {
      var front, last := s[..|s| - 1], s[|s| - 1];
      OccursOnce(front, e);
      assert s == front + [last];
      if e == last {
        assert forall i :: 0 <= i < |front| ==> front[i] == s[i];
        assert e !in front;
      }
    }
  }

  lemma OccursTwice(s: seq<Entry>, i: nat, j: nat)
    requires i < j < |s| && s[i] == s[j]
    ensures multiset(s)[s[i]] >= 2
  {
    assert s == s[..j] + [s[j]] + s[j + 1..];
    assert s[..j][i] == s[i];
  }

  lemma DistinctWithin(s: seq<Entry>, entries: seq<Entry>)
    requires DistinctLabels(entries) && multiset(s) <= multiset(entries)
    ensures DistinctLabels(s)
  {
    forall i, j | 0 <= i < j < |s| ensures s[i].Label() != s[j].Label() {
      assert s[i] in multiset(s) && s[j] in multiset(s);
      assert s[i] in entries && s[j] in entries;
      if s[i] == s[j] {
        OccursTwice(s, i, j);
        OccursOnce(entries, s[i]);
      }
    }
  }

  lemma SortedDistinct(entries: seq<Entry>, lim: Limits)
    requires DistinctLabels(entries)
    ensures DistinctLabels(SortBy(Composites(entries), ByLabel()) + SortBy(Bigs(lim, entries), ByLabel()))
    ensures DistinctLabels(Bigs(lim, entries))
  {
    OrdersAreTotal();
    SortByKeeps(Composites(entries), ByLabel());
    SortByKeeps(Bigs(lim, entries), ByLabel());
    Partition(entries, lim);
    DistinctWithin(SortBy(Composites(entries), ByLabel()) + SortBy(Bigs(lim, entries), ByLabel()), entries);
    DistinctWithin(Bigs(lim, entries), entries);
  }

  lemma SelectedAre(entries: seq<Entry>, lim: Limits)
    ensures forall e :: e in Composites(entries) <==> e in entries && e.Composite()
    ensures forall e :: e in Bigs(lim, entries) <==> e in entries && !e.Composite() && IsBig(lim, e)
  {
    SelectOnly(entries, IsComposite());
    SelectOnly(entries, Not(IsComposite()));
    SelectOnly(Normals(entries), Oversized(lim));
  }

  lemma ForksAreDistinct(sc: seq<Entry>, sb: seq<Entry>, n: nat, ck: seq<Fork>, bg: seq<Fork>)
    requires n <= |sb| && DistinctLabels(sc + sb) && ForksOf(ck, Ck, sc) && ForksOf(bg, Bg, sb[..n])
    ensures DistinctForks(ck + bg)
  {
    forall i | 0 <= i < |ck + bg| ensures (ck + bg)[i].table == (sc + sb)[i] {
    }
  }

  lemma ForksAreOk(entries: seq<Entry>, lim: Limits, sc: seq<Entry>, sb: seq<Entry>, n: nat, ck: seq<Fork>,
                   bg: seq<Fork>)
    requires n <= |sb| && ForksOf(ck, Ck, sc) && ForksOf(bg, Bg, sb[..n])
    requires forall i :: 0 <= i < |sc| ==> sc[i] in entries && sc[i].Composite()
    requires forall i :: 0 <= i < |sb| ==> sb[i] in entries && !sb[i].Composite() && IsBig(lim, sb[i])
    ensures forall i :: 0 <= i < |ck + bg| ==> ForkOk((ck + bg)[i], lim, entries)
  {
    forall i | 0 <= i < |ck + bg| ensures ForkOk((ck + bg)[i], lim, entries) {
      if i < |ck| {
        assert ForkOk(ck[i], lim, entries);
      } else {
        assert ForkOk(bg[i - |ck|], lim, entries);
      }
    }
  }

  lemma EachIsForked(sc: seq<Entry>, sb: seq<Entry>, n: nat, ck: seq<Fork>, bg: seq<Fork>)
    requires n <= |sb| && ForksOf(ck, Ck, sc) && ForksOf(bg, Bg, sb[..n])
    ensures forall e :: e in sc ==> ForkFor(ck + bg, e.Label())
    ensures forall e :: e in sb ==> ForkFor(ck + bg, e.Label()) || e.Label() in Labels(sb[n..])
  {
    forall e | e in sc ensures ForkFor(ck + bg, e.Label()) {
      var i :| 0 <= i < |sc| && sc[i] == e;
      assert (ck + bg)[i].table == e;
    }
    forall e | e in sb ensures ForkFor(ck + bg, e.Label()) || e.Label() in Labels(sb[n..]) {
      var i :| 0 <= i < |sb| && sb[i] == e;
      if i < n {
        assert (ck + bg)[|ck| + i].table == e;
      } else {
        assert Labels(sb[n..])[i - n] == e.Label();
      }
    }
  }

  ghost predicate ForkPartOk(entries: seq<Entry>, lim: Limits, forks: seq<Fork>, overflow: seq<string>) {
    var big, composites := Bigs(lim, entries), Composites(entries);
    var nBg := Max(0, Min(lim.maxBigCdcForks, |big|));
    && |forks| == |composites| + nBg && DistinctForks(forks)
    && (forall i :: 0 <= i < |forks| ==> ForkOk(forks[i], lim, entries))
    && (forall e :: e in entries && e.Composite() ==> ForkFor(forks, e.Label()))
    && |overflow| == |big| - nBg
    && (forall e :: e in big ==> ForkFor(forks, e.Label()) || e.Label() in overflow)
  }

  /** The forks of a plan, from the two sorted lists. */
  lemma ForkPart(entries: seq<Entry>, lim: Limits, ck: seq<Fork>, bg: seq<Fork>, overflow: seq<string>)
    requires DistinctLabels(entries) && ForksOf(ck, Ck, SortBy(Composites(entries), ByLabel()))
    requires var sorted, n := SortBy(Bigs(lim, entries), ByLabel()),
                              Max(0, Min(lim.maxBigCdcForks, |Bigs(lim, entries)|));
             n <= |sorted| && ForksOf(bg, Bg, sorted[..n]) && overflow == Labels(sorted[n..])
    ensures ForkPartOk(entries, lim, ck + bg, overflow)
  {
    var sc, sb := SortBy(Composites(entries), ByLabel()), SortBy(Bigs(lim, entries), ByLabel());
    var n := Max(0, Min(lim.maxBigCdcForks, |Bigs(lim, entries)|));
    OrdersAreTotal();
    SortByHas(Composites(entries), ByLabel());
    SortByHas(Bigs(lim, entries), ByLabel());
    SelectedAre(entries, lim);
    SortedDistinct(entries, lim);
    ForksAreDistinct(sc, sb, n, ck, bg);
    ForksAreOk(entries, lim, sc, sb, n, ck, bg);
    EachIsForked(sc, sb, n, ck, bg);
  }

  ghost predicate GroupPartOk(entries: seq<Entry>, lim: Limits, groups: seq<Group>) {
    && multiset(Tables(groups)) == multiset(entries)
    && GroupsOk(groups, lim, entries)
    && |Composites(entries)| <= |groups| <= Max(lim.maxGroups, |Bigs(lim, entries)| + 1) + |Composites(entries)|
  }

  lemma GroupsAreOk(entries: seq<Entry>, lim: Limits, bigs: seq<Group>, normal: seq<Group>, all: seq<Group>,
                    sorted: seq<Entry>)
    requires |bigs| == |Bigs(lim, entries)|
    requires forall i :: 0 <= i < |bigs| ==> bigs[i] == Group(i, Big, [Bigs(lim, entries)[i]])
    requires bigs <= normal && SmallsOk(normal, |bigs|, Smalls(lim, entries), NBuckets(lim, |bigs|))
    requires CompositeGroups(all, normal, sorted)
    ensures GroupsOk(all, lim, entries)
  {
    forall i | 0 <= i < |all| ensures GroupOk(all[i], i, lim, entries) {
      if i < |bigs| {
        assert all[i] == normal[i] == bigs[i];
      } else if i < |normal| {
        assert all[i] == normal[i];
        assert SmallOk(normal[i], i, Smalls(lim, entries), NBuckets(lim, |bigs|));
      }
    }
  }

  lemma TablesArePartitioned(entries: seq<Entry>, lim: Limits, normal: seq<Group>, all: seq<Group>)
    requires multiset(Tables(normal)) == multiset(Bigs(lim, entries)) + multiset(Smalls(lim, entries))
    requires Tables(all) == Tables(normal) + SortBy(Composites(entries), ByLabel())
    ensures multiset(Tables(all)) == multiset(entries)
  {
    OrdersAreTotal();
    SortByKeeps(Composites(entries), ByLabel());
    Partition(entries, lim);
  }

  /** The groups of a plan, from the big, small and composite ones. */
  lemma GroupPart(entries: seq<Entry>, lim: Limits, bigs: seq<Group>, normal: seq<Group>, all: seq<Group>)
    requires |bigs| == |Bigs(lim, entries)|
    requires forall i :: 0 <= i < |bigs| ==> bigs[i] == Group(i, Big, [Bigs(lim, entries)[i]])
    requires bigs <= normal && SmallsOk(normal, |bigs|, Smalls(lim, entries), NBuckets(lim, |bigs|))
    requires |normal| <= |bigs| + NBuckets(lim, |bigs|)
    requires multiset(Tables(normal)) == multiset(Bigs(lim, entries)) + multiset(Smalls(lim, entries))
    requires CompositeGroups(all, normal, SortBy(Composites(entries), ByLabel()))
    ensures GroupPartOk(entries, lim, all) && |all| == |normal| + |Composites(entries)|
  {
    OrdersAreTotal();
    SortByHas(Composites(entries), ByLabel());
    GroupsAreOk(entries, lim, bigs, normal, all, SortBy(Composites(entries), ByLabel()));
    TablesArePartitioned(entries, lim, normal, all);
  }

  predicate BigsFirst(groups: seq<Group>, big: seq<Entry>) {
    && |big| <= |groups|
    && (forall i :: 0 <= i < |big| ==> groups[i] == Group(i, Big, [big[i]]))
    && (forall i :: |big| <= i < |groups| ==> !groups[i].kind.Big?)
  }

  /** The groups of the whole plan, and the forks of its composite tables. */
  method PlanGroups(entries: seq<Entry>, lim: Limits) returns (normal: nat, ck: seq<Fork>, all: seq<Group>)
    ensures GroupPartOk(entries, lim, all) && |all| == normal + |Composites(entries)|
    ensures ForksOf(ck, Ck, SortBy(Composites(entries), ByLabel()))
    ensures BigsFirst(all, Bigs(lim, entries))
    ensures LanesOk(entries, lim, all) && SmallLanesOk(entries, lim, all)
  {
    var big, small := Bigs(lim, entries), Smalls(lim, entries);
    var bigs := BigGroups(big);
    var normals := SmallGroups(small, NBuckets(lim, |big|), bigs);
    ck, all := CompositeForks(Composites(entries), normals);
    GroupPart(entries, lim, bigs, normals, all);
    BigsComeFirst(entries, lim, bigs, normals, all, SortBy(Composites(entries), ByLabel()));
    normal := |normals|;
    InLanes(entries, lim, normals, all);
    LanesAre(entries, lim, all, normal);
  }

  lemma BigsComeFirst(entries: seq<Entry>, lim: Limits, bigs: seq<Group>, normal: seq<Group>, all: seq<Group>,
                      sorted: seq<Entry>)
    requires |bigs| == |Bigs(lim, entries)|
    requires forall i :: 0 <= i < |bigs| ==> bigs[i] == Group(i, Big, [Bigs(lim, entries)[i]])
    requires bigs <= normal && SmallsOk(normal, |bigs|, Smalls(lim, entries), NBuckets(lim, |bigs|))
    requires CompositeGroups(all, normal, sorted)
    ensures BigsFirst(all, Bigs(lim, entries))
  {
    forall i | |bigs| <= i < |all| ensures !all[i].kind.Big? {
      if i < |normal| {
        assert all[i] == normal[i];
        assert SmallOk(normal[i], i, Smalls(lim, entries), NBuckets(lim, |bigs|));
      }
    }
    forall i | 0 <= i < |bigs| ensures all[i] == bigs[i] {
      assert all[i] == normal[i];
    }
  }

  function ForksFor(kind: ForkKind, tables: seq<Entry>): (forks: seq<Fork>)
    ensures ForksOf(forks, kind, tables)
  {
    seq(|tables|, i requires 0 <= i < |tables| => Fork(kind, tables[i], [tables[i]]))
  }

  /** The forks the plan sets up: the composite tables, then the first big ones, each by label. */
  function PlannedForks(entries: seq<Entry>, lim: Limits): seq<Fork> {
    var sorted := SortBy(Bigs(lim, entries), ByLabel());
    ForksFor(Ck, SortBy(Composites(entries), ByLabel()))
    + ForksFor(Bg, sorted[..Min(|sorted|, Max(0, Min(lim.maxBigCdcForks, |Bigs(lim, entries)|)))])
  }

  /** The forks of the big tables, beside those of the composite ones. */
  method PlanForks(entries: seq<Entry>, lim: Limits, all: seq<Group>, ck: seq<Fork>)
    returns (bg: seq<Fork>, overflow: seq<string>)
    requires DistinctLabels(entries) && BigsFirst(all, Bigs(lim, entries))
    requires ForksOf(ck, Ck, SortBy(Composites(entries), ByLabel()))
    ensures ForkPartOk(entries, lim, ck + bg, overflow) && ck + bg == PlannedForks(entries, lim)
    ensures ForksMean(entries, lim, ck + bg, overflow)
  {
    SortedDistinct(entries, lim);
    bg, overflow := BigForks(Bigs(lim, entries), all, lim.maxBigCdcForks);
    ForkPart(entries, lim, ck, bg, overflow);
    ForksAreMeant(entries, lim, ck, bg, overflow, Max(0, Min(lim.maxBigCdcForks, |Bigs(lim, entries)|)));
    ForksArePlanned(entries, lim, ck, bg);
  }

  lemma ForksArePlanned(entries: seq<Entry>, lim: Limits, ck: seq<Fork>, bg: seq<Fork>)
    requires ForksOf(ck, Ck, SortBy(Composites(entries), ByLabel()))
    requires var sorted, n := SortBy(Bigs(lim, entries), ByLabel()),
                              Max(0, Min(lim.maxBigCdcForks, |Bigs(lim, entries)|));
             n <= |sorted| && ForksOf(bg, Bg, sorted[..n])
    ensures ck + bg == PlannedForks(entries, lim)
  {
    var sorted, n := SortBy(Bigs(lim, entries), ByLabel()), Max(0, Min(lim.maxBigCdcForks, |Bigs(lim, entries)|));
    assert ck == ForksFor(Ck, SortBy(Composites(entries), ByLabel()));
    assert bg == ForksFor(Bg, sorted[..n]);
  }

  // ----- the plan is what the rules say ----------------------------------------------------

  lemma {:induction false} CountSelected(entries: seq<Entry>, p: Entry -> bool)
    ensures |set i | 0 <= i < |entries| && p(entries[i])| == |Select(entries, p)|
  {
    var all := set i | 0 <= i < |entries| && p(entries[i]);
    if entries == [] {
      assert all == {};
    } else {
      var n := |entries| - 1;
      CountSelected(entries[..n], p);
      var some := set i | 0 <= i < n && p(entries[..n][i]);
      assert all == if p(entries[n]) then some + {n} else some;
    }
  }

  lemma {:induction false} SelectTwice(entries: seq<Entry>, p: Entry -> bool, q: Entry -> bool, both: Entry -> bool)
    requires forall e :: both(e) <==> p(e) && q(e)
    ensures Select(Select(entries, p), q) == Select(entries, both)
  {
    if entries != [] {
      var front, e := entries[..|entries| - 1], entries[|entries| - 1];
      SelectTwice(front, p, q, both);
      SelectSnoc(Select(front, p), e, q);
      if p(e) {
        assert Select(entries, p) == Select(front, p) + [e];
        assert (Select(front, p) + [e])[..|Select(front, p)|] == Select(front, p);
      } else {
        assert Select(entries, p) == Select(front, p);
      }
    }
  }

  lemma {:induction false} SelectSame(entries: seq<Entry>, lim: Limits)
    ensures Select(entries, (e: Entry) => SmallTable(lim, e)) == SmallTables(lim, entries)
  {
    if entries != [] {
      SelectSame(entries[..|entries| - 1], lim);
    }
  }

  /** The three lists are the composite, the big and the small tables, by the rules' own tests. */
  lemma ListsAre(entries: seq<Entry>, lim: Limits)
    ensures |Composites(entries)| == CountComposite(entries) && |Bigs(lim, entries)| == CountBig(lim, entries)
    ensures Smalls(lim, entries) == SmallTables(lim, entries)
  {
    var big, small := (e: Entry) => BigTable(lim, e), (e: Entry) => SmallTable(lim, e);
    CountSelected(entries, IsComposite());
    assert (set i | 0 <= i < |entries| && IsComposite()(entries[i])) ==
           set i | 0 <= i < |entries| && CompositeTable(entries[i]);
    SelectTwice(entries, Not(IsComposite()), Oversized(lim), big);
    CountSelected(entries, big);
    assert (set i | 0 <= i < |entries| && big(entries[i])) == set i | 0 <= i < |entries| && BigTable(lim, entries[i]);
    SelectTwice(entries, Not(IsComposite()), Not(Oversized(lim)), small);
    SelectSame(entries, lim);
  }

  lemma {:induction false} SmallOnes(entries: seq<Entry>, lim: Limits)
    ensures forall i :: 0 <= i < |SmallTables(lim, entries)| ==> SmallTable(lim, SmallTables(lim, entries)[i])
  {
    if entries != [] {
      SmallOnes(entries[..|entries| - 1], lim);
    }
  }

  /** The lanes of a plan, by the order they are made in. */
  ghost predicate Lanes(entries: seq<Entry>, lim: Limits, all: seq<Group>, normal: nat) {
    var nBig := |Bigs(lim, entries)|;
    && nBig <= normal <= |all| && BigsFirst(all, Bigs(lim, entries))
    && (forall i :: nBig <= i < normal ==> SmallOk(all[i], i, Smalls(lim, entries), NBuckets(lim, nBig)))
    && (forall i :: normal <= i < |all| ==>
          && all[i].index == i && all[i].kind.CompositeFork? && |all[i].tables| == 1
          && all[i].tables[0] in Composites(entries))
    && normal <= nBig + NBuckets(lim, nBig)
    && (HaveRows(Smalls(lim, entries)) ==> normal == nBig + Min(NBuckets(lim, nBig), |Smalls(lim, entries)|))
  }

  lemma LaneIsOk(entries: seq<Entry>, lim: Limits, all: seq<Group>, normal: nat, i: nat)
    requires Lanes(entries, lim, all, normal) && i < |all|
    ensures all[i].index == i && LaneOk(lim, all[i])
  {
    var nBig := |Bigs(lim, entries)|;
    SelectedAre(entries, lim);
    ListsAre(entries, lim);
    SmallOnes(entries, lim);
    if i < nBig {
      assert all[i] == Group(i, Big, [Bigs(lim, entries)[i]]);
      assert Bigs(lim, entries)[i] in Bigs(lim, entries);
    } else if i < normal {
      assert SmallOk(all[i], i, Smalls(lim, entries), NBuckets(lim, nBig));
    }
  }

  predicate Between(lo: int, i: int, hi: int) { lo <= i < hi }

  lemma {:induction false} RangeSize(lo: int, hi: int)
    requires lo <= hi
    ensures |set i | lo <= i < hi && Between(lo, i, hi)| == hi - lo
    decreases hi - lo
  {
    var all := set i | lo <= i < hi && Between(lo, i, hi);
    if lo == hi {
      assert all == {};
    } else {
      var last := hi - 1;
      RangeSize(lo, last);
      assert all == (set i | lo <= i < last && Between(lo, i, last)) + {last};
    }
  }

  lemma SmallLanesAre(entries: seq<Entry>, lim: Limits, all: seq<Group>, normal: nat)
    requires Lanes(entries, lim, all, normal)
    ensures SmallLanesOk(entries, lim, all)
  {
    var nBig := |Bigs(lim, entries)|;
    ListsAre(entries, lim);
    assert NBuckets(lim, nBig) == Max(1, lim.maxGroups - CountBig(lim, entries));
    forall i | 0 <= i < |all| ensures all[i].kind.Small? <==> nBig <= i < normal {
      if nBig <= i < normal {
        assert SmallOk(all[i], i, Smalls(lim, entries), NBuckets(lim, nBig));
      }
    }
    assert (set i | 0 <= i < |all| && all[i].kind.Small?) == set i | nBig <= i < normal && Between(nBig, i, normal);
    RangeSize(nBig, normal);
    forall i | 0 <= i < |all| && all[i].kind.Small?
      ensures NearOptimal(all[i].tables, SmallTables(lim, entries), Max(1, lim.maxGroups - CountBig(lim, entries)))
    {
      assert SmallOk(all[i], i, Smalls(lim, entries), NBuckets(lim, nBig));
    }
    var small := SmallTables(lim, entries);
    if forall t :: t in small ==> t.rows > 0 {
      assert HaveRows(small);
    }
  }

  lemma InLanes(entries: seq<Entry>, lim: Limits, normals: seq<Group>, all: seq<Group>)
    requires BigsFirst(all, Bigs(lim, entries)) && |Bigs(lim, entries)| <= |normals|
    requires SmallsOk(normals, |Bigs(lim, entries)|, Smalls(lim, entries), NBuckets(lim, |Bigs(lim, entries)|))
    requires |normals| <= |Bigs(lim, entries)| + NBuckets(lim, |Bigs(lim, entries)|)
    requires HaveRows(Smalls(lim, entries)) ==>
               |normals| == |Bigs(lim, entries)| + Min(NBuckets(lim, |Bigs(lim, entries)|), |Smalls(lim, entries)|)
    requires CompositeGroups(all, normals, SortBy(Composites(entries), ByLabel()))
    ensures Lanes(entries, lim, all, |normals|)
  {
    OrdersAreTotal();
    SortByHas(Composites(entries), ByLabel());
    var nBig := |Bigs(lim, entries)|;
    forall i | nBig <= i < |normals| ensures SmallOk(all[i], i, Smalls(lim, entries), NBuckets(lim, nBig)) {
      assert all[i] == normals[i] && SmallOk(normals[i], i, Smalls(lim, entries), NBuckets(lim, nBig));
    }
    forall i | |normals| <= i < |all| ensures all[i].tables[0] in Composites(entries) {
      assert all[i].tables[0] in SortBy(Composites(entries), ByLabel());
    }
  }

  lemma LanesAre(entries: seq<Entry>, lim: Limits, all: seq<Group>, normal: nat)
    requires Lanes(entries, lim, all, normal) && multiset(Tables(all)) == multiset(entries)
    ensures LanesOk(entries, lim, all) && SmallLanesOk(entries, lim, all)
  {
    SmallLanesAre(entries, lim, all, normal);
    forall i | 0 <= i < |all| ensures all[i].index == i && LaneOk(lim, all[i]) {
      LaneIsOk(entries, lim, all, normal, i);
    }
  }

  /** The forks of a plan, by the order they are made in: composite tables by label, then big ones. */
  lemma BgForks(ck: seq<Fork>, bg: seq<Fork>, sc: seq<Entry>, some: seq<Entry>)
    requires ForksOf(ck, Ck, sc) && ForksOf(bg, Bg, some)
    ensures |set i | 0 <= i < |ck + bg| && (ck + bg)[i].kind.Bg?| == |some|
  {
    var n := |ck + bg|;
    assert (set i | 0 <= i < n && (ck + bg)[i].kind.Bg?) == set i | |ck| <= i < n && Between(|ck|, i, n);
    RangeSize(|ck|, n);
  }

  lemma ForkMeans(entries: seq<Entry>, lim: Limits, sc: seq<Entry>, some: seq<Entry>, ck: seq<Fork>, bg: seq<Fork>)
    requires ForksOf(ck, Ck, sc) && ForksOf(bg, Bg, some)
    requires forall e :: e in sc ==> e in entries && CompositeTable(e)
    requires forall e :: e in some ==> e in entries && BigTable(lim, e)
    ensures forall i :: 0 <= i < |ck + bg| ==>
              var f := (ck + bg)[i];
              && f.tables == [f.table] && f.table in entries
              && if f.kind.Ck? then CompositeTable(f.table) else BigTable(lim, f.table)
  {
    forall i | 0 <= i < |ck + bg| ensures (ck + bg)[i].table == (sc + some)[i] {
    }
    forall i | 0 <= i < |sc + some| ensures (sc + some)[i] in sc || (sc + some)[i] in some {
    }
  }

  lemma ForkedAre(ck: seq<Fork>, bg: seq<Fork>, sc: seq<Entry>, some: seq<Entry>, e: Entry)
    requires ForksOf(ck, Ck, sc) && ForksOf(bg, Bg, some)
    ensures (exists i :: 0 <= i < |ck + bg| && (ck + bg)[i].table == e) <==> e in sc || e in some
  {
    if e in sc {
      var i :| 0 <= i < |sc| && sc[i] == e;
      assert (ck + bg)[i].table == e;
    }
    if e in some {
      var i :| 0 <= i < |some| && some[i] == e;
      assert (ck + bg)[|ck| + i].table == e;
    }
  }

  lemma InLabels(s: seq<Entry>, e: Entry)
    requires e in s
    ensures e.Label() in Labels(s)
  {
    var i :| 0 <= i < |s| && s[i] == e;
    assert Labels(s)[i] == e.Label();
  }

  /** A sorted list cut in two: the overflow is what is not in the first part, and comes after it. */
  lemma OverflowMeans(sb: seq<Entry>, n: nat, e: Entry)
    requires n <= |sb| && DistinctLabels(sb) && Ordered(sb, ByLabel()) && e in sb
    ensures e.Label() in Labels(sb[n..]) <==> e !in sb[..n]
    ensures e.Label() in Labels(sb[n..]) ==> forall f :: f in sb[..n] ==> Before(f.Label(), e.Label())
  {
    var i :| 0 <= i < |sb| && sb[i] == e;
    if i < n {
      forall k | 0 <= k < |sb[n..]| ensures Labels(sb[n..])[k] != e.Label() {
        assert sb[n..][k] == sb[n + k];
      }
      assert sb[..n][i] == e;
    } else {
      InLabels(sb[n..], e) by { assert sb[n..][i - n] == e; }
      forall f | f in sb[..n] ensures Before(f.Label(), e.Label()) {
        var k :| 0 <= k < n && sb[k] == f;
        assert ByLabel()(sb[k], sb[i]);
      }
    }
  }

  lemma OverflowIsBig(entries: seq<Entry>, lim: Limits, rest: seq<Entry>, x: string)
    requires x in Labels(rest) && forall e :: e in rest ==> e in entries && BigTable(lim, e)
    ensures exists e :: e in entries && BigTable(lim, e) && e.Label() == x
  {
    var k :| 0 <= k < |rest| && Labels(rest)[k] == x;
    assert rest[k] in rest;
  }

  lemma ForksAreMeant(entries: seq<Entry>, lim: Limits, ck: seq<Fork>, bg: seq<Fork>, overflow: seq<string>, n: nat)
    requires DistinctLabels(entries) && ForksOf(ck, Ck, SortBy(Composites(entries), ByLabel()))
    requires n == Max(0, Min(lim.maxBigCdcForks, |Bigs(lim, entries)|))
    requires var sorted := SortBy(Bigs(lim, entries), ByLabel());
             n <= |sorted| && ForksOf(bg, Bg, sorted[..n]) && overflow == Labels(sorted[n..])
    ensures ForksMean(entries, lim, ck + bg, overflow)
  {
    var sc, sb := SortBy(Composites(entries), ByLabel()), SortBy(Bigs(lim, entries), ByLabel());
    SortedLists(entries, lim);
    ListsAre(entries, lim);
    assert forall e :: e in sb[..n] ==> e in sb;
    assert forall e :: e in sb[n..] ==> e in sb;
    ForkMeans(entries, lim, sc, sb[..n], ck, bg);
    BgForks(ck, bg, sc, sb[..n]);
    ForksAreDistinct(sc, sb, n, ck, bg) by { SortedDistinct(entries, lim); }
    forall e ensures (exists i :: 0 <= i < |ck + bg| && (ck + bg)[i].table == e) <==> e in sc || e in sb[..n] {
      ForkedAre(ck, bg, sc, sb[..n], e);
    }
    OverflowIsMeant(entries, lim, ck, bg, n);
  }

  /** The sorted lists hold the composite and the big tables. */
  lemma SortedLists(entries: seq<Entry>, lim: Limits)
    ensures forall e :: e in SortBy(Composites(entries), ByLabel()) <==> e in entries && CompositeTable(e)
    ensures forall e :: e in SortBy(Bigs(lim, entries), ByLabel()) <==> e in entries && BigTable(lim, e)
    ensures Ordered(SortBy(Bigs(lim, entries), ByLabel()), ByLabel())
  {
    OrdersAreTotal();
    SortByHas(Composites(entries), ByLabel());
    SortByHas(Bigs(lim, entries), ByLabel());
    SortByKeeps(Bigs(lim, entries), ByLabel());
    SelectedAre(entries, lim);
  }

  lemma OverflowIsMeant(entries: seq<Entry>, lim: Limits, ck: seq<Fork>, bg: seq<Fork>, n: nat)
    requires DistinctLabels(entries) && n <= |SortBy(Bigs(lim, entries), ByLabel())|
    requires ForksOf(ck, Ck, SortBy(Composites(entries), ByLabel()))
    requires ForksOf(bg, Bg, SortBy(Bigs(lim, entries), ByLabel())[..n])
    ensures var sb := SortBy(Bigs(lim, entries), ByLabel());
            var overflow, forks := Labels(sb[n..]), ck + bg;
            && (forall e :: e in entries && BigTable(lim, e) ==>
                  (e.Label() in overflow <==> forall i :: 0 <= i < |forks| ==> forks[i].table != e))
            && (forall i, e :: 0 <= i < |forks| && forks[i].kind.Bg? && e in entries && e.Label() in overflow ==>
                  Before(forks[i].table.Label(), e.Label()))
            && (forall x :: x in overflow ==> exists e :: e in entries && BigTable(lim, e) && e.Label() == x)
  {
    var sc, sb := SortBy(Composites(entries), ByLabel()), SortBy(Bigs(lim, entries), ByLabel());
    SortedLists(entries, lim);
    SortedDistinct(entries, lim);
    assert DistinctLabels(sb) by { assert forall i :: 0 <= i < |sb| ==> (sc + sb)[|sc| + i] == sb[i]; }
    forall e | e in entries && BigTable(lim, e)
      ensures e.Label() in Labels(sb[n..]) <==> forall i :: 0 <= i < |ck + bg| ==> (ck + bg)[i].table != e
    {
      OverflowMeans(sb, n, e);
      ForkedAre(ck, bg, sc, sb[..n], e);
    }
    forall x | x in Labels(sb[n..]) ensures exists e :: e in entries && BigTable(lim, e) && e.Label() == x {
      assert forall e :: e in sb[n..] ==> e in sb;
      OverflowIsBig(entries, lim, sb[n..], x);
    }
    forall i, e | 0 <= i < |ck + bg| && (ck + bg)[i].kind.Bg? && e in entries && e.Label() in Labels(sb[n..])
      ensures Before((ck + bg)[i].table.Label(), e.Label())
    {
      LaterLabel(entries, sb, n, e);
      assert (ck + bg)[i].table == sb[..n][i - |ck|];
    }
  }

  /** An entry whose label overflows is the big table of that label. */
  lemma LaterLabel(entries: seq<Entry>, sb: seq<Entry>, n: nat, e: Entry)
    requires DistinctLabels(entries) && DistinctLabels(sb) && Ordered(sb, ByLabel()) && n <= |sb|
    requires e in entries && e.Label() in Labels(sb[n..]) && forall f :: f in sb ==> f in entries
    ensures forall f :: f in sb[..n] ==> Before(f.Label(), e.Label())
  {
    var k :| 0 <= k < |sb[n..]| && Labels(sb[n..])[k] == e.Label();
    assert sb[n..][k] == sb[n + k] && sb[n + k] in sb;
    SameLabelSameEntry(entries, sb[n + k], e);
    OverflowMeans(sb, n, e);
  }

  /** What the plan promises: its groups, its forks, the owners and the connection pacing. */
  ghost predicate PlanOk(entries: seq<Entry>, lim: Limits, slug: string -> string, p: Plan) {
    && GroupPartOk(entries, lim, p.groups)
    && ForkPartOk(entries, lim, p.forks, p.overflow)
    && OwnersOk(p.forks, slug, p.owners)
    && Paced(lim, |p.groups| - |Composites(entries)|, p.loadersInFlight, p.writersPerLoader)
  }

  /** The plan itself, whatever its forks are named. */
  method PlanAll(entries: seq<Entry>, lim: Limits, slug: string -> string) returns (p: Plan)
    requires DistinctLabels(entries)
    ensures PlanOk(entries, lim, slug, p) && p.forks == PlannedForks(entries, lim)
    ensures LanesOk(entries, lim, p.groups) && SmallLanesOk(entries, lim, p.groups)
    ensures ForksMean(entries, lim, p.forks, p.overflow)
  {
    var normal, ck, all := PlanGroups(entries, lim);
    var loaders, writers := Pace(lim, normal);
    var bg, overflow := PlanForks(entries, lim, all, ck);
    var forks := ck + bg;
    var owners := IntendedOwners(forks, slug);
    p := Plan(all, forks, overflow, owners, loaders, writers);
  }

  /** `handler`: plan the task, or refuse it. */
  method Split(entries: seq<Entry>, lim: Limits, nm: Naming) returns (r: Result<Plan, PlanError>)
    requires DistinctLabels(entries)
    ensures r == Err(NoTables) <==> entries == []
    ensures r == Err(TooManyComposites) <==> entries != [] && CountComposite(entries) > lim.maxCompositeForks
    ensures r == Err(NameTooLong) <==>
              && entries != [] && CountComposite(entries) <= lim.maxCompositeForks
              && exists i :: 0 <= i < |PlannedForks(entries, lim)| && !Nameable(lim, nm, PlannedForks(entries, lim)[i])
    ensures r.Ok? ==> PlanOk(entries, lim, Slug(nm), r.value)
    ensures r.Ok? ==> LanesOk(entries, lim, r.value.groups) && SmallLanesOk(entries, lim, r.value.groups)
    ensures r.Ok? ==> ForksMean(entries, lim, r.value.forks, r.value.overflow)
    ensures r.Ok? ==> OwnersMean(r.value.forks, x => nm.readable(x) + "-" + nm.hash(x), r.value.owners)
    ensures r.Ok? ==> forall i, role :: 0 <= i < |r.value.forks| && JobRole(lim, r.value.forks[i], role) ==>
                        NameFits(nm, r.value.forks[i], role)
    ensures r == Err(NameTooLong) ==> exists forks, overflow, i, role ::
              && ForksMean(entries, lim, forks, overflow) && 0 <= i < |forks| && JobRole(lim, forks[i], role)
              && !NameFits(nm, forks[i], role)
  {
    ListsAre(entries, lim);
    if entries == [] {
      return Err(NoTables);
    }
    if |Composites(entries)| > lim.maxCompositeForks {
      return Err(TooManyComposites);
    }
    var plan := PlanAll(entries, lim, Slug(nm));
    var bad := NameForks(lim, nm, plan.forks);
    if bad.Some? {
      return Err(NameTooLong);
    }
    OwnersAreMeant(plan.forks, Slug(nm), plan.owners);
    r := Ok(plan);
  }

  /** Every table of the index is in exactly one group and has exactly one owner: its composite
      fork, its big-table fork, or the main job. */
  lemma EveryTableHasOneOwner(entries: seq<Entry>, lim: Limits, slug: string -> string, p: Plan, e: Entry)
    requires DistinctLabels(entries) && PlanOk(entries, lim, slug, p) && e in entries
    ensures multiset(Tables(p.groups))[e] == 1
    ensures var owner := OwnerOf(p.owners, e.Label());
            && (ForkFor(p.forks, e.Label()) <==> exists i :: 0 <= i < |p.forks| && p.forks[i].table == e)
            && (e.Composite() ==> owner == OwnerName(Ck, slug, e.Label()))
            && (!e.Composite() && ForkFor(p.forks, e.Label()) ==> owner == OwnerName(Bg, slug, e.Label()))
            && (owner == MAIN <==> !ForkFor(p.forks, e.Label()))
  {
    OccursOnce(entries, e);
    assert e in multiset(entries);
    if ForkFor(p.forks, e.Label()) {
      var i :| 0 <= i < |p.forks| && p.forks[i].table.Label() == e.Label();
      assert ForkOk(p.forks[i], lim, entries);
      SameLabelSameEntry(entries, p.forks[i].table, e);
      assert OwnerName(p.forks[i].kind, slug, e.Label())[0] != MAIN[0];
    }
  }

  lemma SameLabelSameEntry(entries: seq<Entry>, a: Entry, b: Entry)
    requires DistinctLabels(entries) && a in entries && b in entries && a.Label() == b.Label()
    ensures a == b
  {
    var i :| 0 <= i < |entries| && entries[i] == a;
    var j :| 0 <= j < |entries| && entries[j] == b;
  }
}
