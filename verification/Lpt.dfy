/**
 Longest-first bin packing: the quality of the greedy assignment that the fan-out planner
 (lambdas/plan_split.py) uses, on plain weights.

 An assignment is the list of bucket numbers of the jobs.  `GreedyIsNearOptimal` is the
 (4/3 - 1/(3m)) bound against every other assignment; `GreedyIsBelowTwice` the (2 - 1/m) bound
 that needs no order.
 */
module Lpt {

  // ----- loads -----------------------------------------------------------------------------

  function Sum(w: seq<nat>): nat {
    if w == [] then 0 else Sum(w[..|w| - 1]) + w[|w| - 1]
  }

  /** The weight an assignment puts in bucket `b`. */
  function Load(w: seq<nat>, a: seq<nat>, b: nat): nat
    requires |a| == |w|
  {
    if w == [] then 0
    else Load(w[..|w| - 1], a[..|a| - 1], b) + if a[|a| - 1] == b then w[|w| - 1] else 0
  }

  function Loads(w: seq<nat>, a: seq<nat>, m: nat): (r: seq<nat>)
    requires |a| == |w|
    ensures |r| == m && forall b :: 0 <= b < m ==> r[b] == Load(w, a, b)
  {
    seq(m, b requires 0 <= b < m => Load(w, a, b))
  }

  predicate Assigns(a: seq<nat>, n: nat, m: nat) {
    |a| == n && forall i :: 0 <= i < n ==> a[i] < m
  }

  lemma TimesGrows(a: nat, b: nat, c: nat)
    requires b <= c
    ensures a * b <= a * c
  {
  }

  lemma {:induction false} SumOfZeros(w: seq<nat>)
    requires forall i :: 0 <= i < |w| ==> w[i] == 0
    ensures Sum(w) == 0
  {
    if w != [] {
      SumOfZeros(w[..|w| - 1]);
    }
  }

  lemma {:induction false} SumUpdate(w: seq<nat>, b: nat, x: nat)
    requires b < |w|
    ensures Sum(w[b := w[b] + x]) == Sum(w) + x
  {
    var last := |w| - 1;
    var w' := w[b := w[b] + x];
    if b == last {
      assert w'[..last] == w[..last];
    } else {
      assert w'[..last] == w[..last][b := w[b] + x];
      SumUpdate(w[..last], b, x);
    }
  }

  /** Every job is in one bucket, so the loads add up to the whole weight. */
  lemma {:induction false} LoadsAddUp(w: seq<nat>, a: seq<nat>, m: nat)
    requires Assigns(a, |w|, m)
    ensures Sum(Loads(w, a, m)) == Sum(w)
  {
    if w == [] {
      SumOfZeros(Loads(w, a, m));
    } else {
      var w0, a0, b := w[..|w| - 1], a[..|a| - 1], a[|a| - 1];
      LoadsAddUp(w0, a0, m);
      assert Loads(w, a, m) == Loads(w0, a0, m)[b := Loads(w0, a0, m)[b] + w[|w| - 1]];
      SumUpdate(Loads(w0, a0, m), b, w[|w| - 1]);
    }
  }

  lemma {:induction false} SumAtLeast(w: seq<nat>, x: nat)
    requires forall i :: 0 <= i < |w| ==> w[i] >= x
    ensures Sum(w) >= x * |w|
  {
    if w != [] {
      SumAtLeast(w[..|w| - 1], x);
      assert x * |w| == x * (|w| - 1) + x;
    }
  }

  lemma {:induction false} SumAtMost(w: seq<nat>, x: nat)
    requires forall i :: 0 <= i < |w| ==> w[i] <= x
    ensures Sum(w) <= x * |w|
  {
    if w != [] {
      SumAtMost(w[..|w| - 1], x);
      assert x * |w| == x * (|w| - 1) + x;
    }
  }

  /** No bucket is heavier than `x`. */
  predicate Within(w: seq<nat>, a: seq<nat>, m: nat, x: nat)
    requires |a| == |w|
  {
    forall b :: 0 <= b < m ==> Load(w, a, b) <= x
  }

  lemma {:induction false} LoadOfPrefix(w: seq<nat>, a: seq<nat>, b: nat, n: nat)
    requires |a| == |w| && n <= |w|
    ensures Load(w[..n], a[..n], b) <= Load(w, a, b)
  {
    if n == |w| {
      assert w[..n] == w && a[..n] == a;
    } else {
      assert w[..|w| - 1][..n] == w[..n] && a[..|a| - 1][..n] == a[..n];
      LoadOfPrefix(w[..|w| - 1], a[..|a| - 1], b, n);
    }
  }

  // ----- counting the jobs of a bucket -----------------------------------------------------

  function Count(a: seq<nat>, b: nat): nat {
    if a == [] then 0 else Count(a[..|a| - 1], b) + if a[|a| - 1] == b then 1 else 0
  }

  lemma {:induction false} LoadAtLeast(w: seq<nat>, a: seq<nat>, b: nat, x: nat)
    requires |a| == |w| && forall i :: 0 <= i < |w| ==> w[i] >= x
    ensures Load(w, a, b) >= x * Count(a, b)
  {
    if w != [] {
      LoadAtLeast(w[..|w| - 1], a[..|a| - 1], b, x);
      assert x * (Count(a[..|a| - 1], b) + 1) == x * Count(a[..|a| - 1], b) + x;
    }
  }

  lemma {:induction false} EmptyBucket(w: seq<nat>, a: seq<nat>, b: nat)
    requires |a| == |w| && Count(a, b) == 0
    ensures Load(w, a, b) == 0
    ensures forall i :: 0 <= i < |a| ==> a[i] != b
  {
    if w != [] {
      EmptyBucket(w[..|w| - 1], a[..|a| - 1], b);
    }
  }

  /** The only job of a bucket is its load. */
  lemma {:induction false} OnlyJob(w: seq<nat>, a: seq<nat>, b: nat, i: nat)
    requires |a| == |w| && Count(a, b) == 1 && i < |a| && a[i] == b
    ensures Load(w, a, b) == w[i]
  {
    var last := |w| - 1;
    if a[last] == b {
      EmptyBucket(w[..last], a[..last], b);
      assert forall k :: 0 <= k < last ==> a[..last][k] != b;
    } else {
      OnlyJob(w[..last], a[..last], b, i);
    }
  }

  lemma {:induction false} SomeJob(a: seq<nat>, b: nat) returns (i: nat)
    requires Count(a, b) > 0
    ensures i < |a| && a[i] == b
    ensures Count(a, b) > 1 ==> Count(a[..i], b) == Count(a, b) - 1
    ensures forall k :: i < k < |a| ==> a[k] != b
  {
    var last := |a| - 1;
    if a[last] == b {
      i := last;
    } else {
      i := SomeJob(a[..last], b);
      assert a[..last][..i] == a[..i];
    }
  }

  lemma {:induction false} LoadUpTo(w: seq<nat>, a: seq<nat>, b: nat, i: nat)
    requires |a| == |w| && i < |a| && a[i] == b && forall k :: i < k < |a| ==> a[k] != b
    ensures Load(w, a, b) == Load(w[..i], a[..i], b) + w[i]
  {
    var last := |w| - 1;
    if i == last {
    } else {
      LoadUpTo(w[..last], a[..last], b, i);
      assert w[..last][..i] == w[..i] && a[..last][..i] == a[..i];
    }
  }

  /** The two jobs of a bucket, for every weighting at once. */
  lemma TwoJobs(a: seq<nat>, b: nat) returns (i: nat, j: nat)
    requires Count(a, b) == 2
    ensures i < j < |a| && a[i] == b && a[j] == b
    ensures forall w: seq<nat> :: |w| == |a| ==> Load(w, a, b) == w[i] + w[j]
  {
    j := SomeJob(a, b);
    i := SomeJob(a[..j], b);
    forall w: seq<nat> | |w| == |a| ensures Load(w, a, b) == w[i] + w[j] {
      LoadUpTo(w, a, b, j);
      OnlyJob(w[..j], a[..j], b, i);
    }
  }

  // ----- the greedy assignment -------------------------------------------------------------

  /** `bucket_rows.index(min(bucket_rows))`: the first bucket of least load. */
  function ArgMin(loads: seq<nat>): (j: nat)
    requires loads != []
    ensures j < |loads| && forall b :: 0 <= b < |loads| ==> loads[j] <= loads[b]
    ensures forall b :: 0 <= b < j ==> loads[j] < loads[b]
  {
    if |loads| == 1 then 0
    else
      var j := ArgMin(loads[..|loads| - 1]);
      if loads[|loads| - 1] < loads[j] then |loads| - 1 else j
  }

  function Greedy(w: seq<nat>, m: nat): (a: seq<nat>)
    requires m > 0
    ensures Assigns(a, |w|, m)
  {
    if w == [] then []
    else
      var front := w[..|w| - 1];
      Greedy(front, m) + [ArgMin(Loads(front, Greedy(front, m), m))]
  }

  lemma {:induction false} GreedyPrefix(w: seq<nat>, m: nat, n: nat)
    requires m > 0 && n <= |w|
    ensures Greedy(w, m)[..n] == Greedy(w[..n], m)
  {
    if n == |w| {
      assert w[..n] == w;
    } else {
      GreedyPrefix(w[..|w| - 1], m, n);
      assert w[..|w| - 1][..n] == w[..n];
      assert Greedy(w, m)[..n] == Greedy(w[..|w| - 1], m)[..n];
    }
  }

  lemma GreedySnoc(w: seq<nat>, m: nat, x: nat)
    requires m > 0
    ensures Greedy(w + [x], m) == Greedy(w, m) + [ArgMin(Loads(w, Greedy(w, m), m))]
  {
    assert (w + [x])[..|w|] == w;
  }

  lemma LoadSnoc(w: seq<nat>, a: seq<nat>, x: nat, j: nat, b: nat)
    requires |a| == |w|
    ensures Load(w + [x], a + [j], b) == Load(w, a, b) + if j == b then x else 0
  {
    assert (w + [x])[..|w|] == w && (a + [j])[..|a|] == a;
  }

  lemma GreedyLoadsSnoc(w: seq<nat>, m: nat, x: nat, loads: seq<nat>, j: nat)
    requires m > 0 && loads == Loads(w, Greedy(w, m), m) && j == ArgMin(loads)
    ensures Loads(w + [x], Greedy(w + [x], m), m) == loads[j := loads[j] + x]
  {
    GreedySnoc(w, m, x);
    forall b | 0 <= b < m ensures Load(w + [x], Greedy(w + [x], m), b) == loads[j := loads[j] + x][b] {
      LoadSnoc(w, Greedy(w, m), x, j, b);
    }
  }

  /** The last job of a non-empty bucket: it went to a bucket of least load. */
  lemma LastJob(w: seq<nat>, m: nat, b: nat) returns (n: nat)
    requires m > 0 && b < m && Count(Greedy(w, m), b) > 0
    ensures n < |w| && Load(w, Greedy(w, m), b) == Load(w[..n], Greedy(w[..n], m), b) + w[n]
    ensures forall c :: 0 <= c < m ==> Load(w[..n], Greedy(w[..n], m), b) <= Load(w[..n], Greedy(w[..n], m), c)
  {
    var g := Greedy(w, m);
    n := SomeJob(g, b);
    LoadUpTo(w, g, b, n);
    GreedyPrefix(w, m, n);
    GreedyPrefix(w, m, n + 1);
    assert w[..n + 1][..n] == w[..n];
    assert g[n] == g[..n + 1][n] == ArgMin(Loads(w[..n], Greedy(w[..n], m), m));
  }

  /** Averaging: when job `n` goes to a least loaded bucket, the other buckets were no lighter. */
  lemma Averaging(w: seq<nat>, m: nat, n: nat, least: nat, load: nat, o: seq<nat>, x: nat)
    requires m > 0 && n < |w| && load == least + w[n] && Assigns(o, |w|, m) && Within(w, o, m, x)
    requires forall c :: 0 <= c < m ==> least <= Load(w[..n], Greedy(w[..n], m), c)
    ensures m * load <= m * x + (m - 1) * w[n]
  {
    var w1, o1 := w[..n + 1], o[..n + 1];
    LoadsAddUp(w[..n], Greedy(w[..n], m), m);
    SumAtLeast(Loads(w[..n], Greedy(w[..n], m), m), least);
    LoadsAddUp(w1, o1, m);
    forall b | 0 <= b < m ensures Load(w1, o1, b) <= x {
      LoadOfPrefix(w, o, b, n + 1);
    }
    SumAtMost(Loads(w1, o1, m), x);
    assert w1[..n] == w[..n];
    assert Sum(w1) == Sum(w[..n]) + w[n];
    assert m * (least + w[n]) == least * m + w[n] + (m - 1) * w[n];
  }

  lemma {:induction false} JobFits(w: seq<nat>, a: seq<nat>, n: nat)
    requires |a| == |w| && n < |w|
    ensures w[n] <= Load(w, a, a[n])
  {
    if n < |w| - 1 {
      JobFits(w[..|w| - 1], a[..|a| - 1], n);
    }
  }

  lemma TwiceJob(m: nat, load: nat, job: nat, x: nat)
    requires m > 0 && m * load <= m * x + (m - 1) * job && job <= x
    ensures m * load <= (2 * m - 1) * x
  {
    TimesGrows(m - 1, job, x);
    assert (2 * m - 1) * x == m * x + (m - 1) * x;
  }

  lemma BucketBelowTwice(w: seq<nat>, m: nat, o: seq<nat>, x: nat, b: nat)
    requires m > 0 && Assigns(o, |w|, m) && Within(w, o, m, x) && b < m && Count(Greedy(w, m), b) > 0
    ensures m * Load(w, Greedy(w, m), b) <= (2 * m - 1) * x
  {
    var n := LastJob(w, m, b);
    var least, load := Load(w[..n], Greedy(w[..n], m), b), Load(w, Greedy(w, m), b);
    Averaging(w, m, n, least, load, o, x);
    JobFits(w, o, n);
    assert w[n] <= Load(w, o, o[n]) <= x;
    TwiceJob(m, load, w[n], x);
  }

  lemma NoJobsNoLoad(p: nat, q: int, x: nat)
    requires q >= 0
    ensures p * 0 <= q * x
  {
  }

  /** In any order, the greedy assignment's heaviest bucket is at most (2 - 1/m) times that of
      any other assignment. */
  lemma GreedyIsBelowTwice(w: seq<nat>, m: nat, o: seq<nat>, x: nat)
    requires m > 0 && Assigns(o, |w|, m) && Within(w, o, m, x)
    ensures forall b :: 0 <= b < m ==> m * Load(w, Greedy(w, m), b) <= (2 * m - 1) * x
  {
    forall b | 0 <= b < m ensures m * Load(w, Greedy(w, m), b) <= (2 * m - 1) * x {
      if Count(Greedy(w, m), b) == 0 {
        EmptyBucket(w, Greedy(w, m), b);
        NoJobsNoLoad(m, 2 * m - 1, x);
      } else {
        BucketBelowTwice(w, m, o, x, b);
      }
    }
  }

  // ----- heavy jobs ------------------------------------------------------------------------

  predicate Descending(w: seq<nat>) {
    forall i, j :: 0 <= i < j < |w| ==> w[i] >= w[j]
  }

  /** The jobs that share no bucket of the greedy prefix count double; `n` itself counts once. */
  function Marks(g: seq<nat>): (r: seq<nat>)
    ensures |r| == |g| + 1
    ensures forall i :: 0 <= i < |g| ==> r[i] == if Count(g, g[i]) == 1 then 2 else 1
    ensures r[|g|] == 1
  {
    seq(|g|, i requires 0 <= i < |g| => if Count(g, g[i]) == 1 then 2 else 1) + [1]
  }

  /** Each bucket of the greedy prefix holds marks worth at least two. */
  lemma GreedyMarks(g: seq<nat>, b: nat)
    requires Count(g, b) > 0
    ensures Load(Marks(g)[..|g|], g, b) >= 2
  {
    var marks := Marks(g)[..|g|];
    if Count(g, b) == 1 {
      var i := SomeJob(g, b);
      OnlyJob(marks, g, b, i);
    } else {
      LoadAtLeast(marks, g, b, 1);
    }
  }

  /** Each bucket of the other assignment holds marks worth at most two: three jobs would be too
      heavy, and so would a job that is alone in its greedy bucket with any other. */
  lemma OtherMarks(w: seq<nat>, g: seq<nat>, o: seq<nat>, b: nat, least: nat, x: nat)
    requires |w| == |o| == |g| + 1 && Descending(w) && 3 * w[|g|] > x && least + w[|g|] > x
    requires forall i :: 0 <= i < |g| ==> least <= Load(w[..|g|], g, g[i])
    requires Load(w, o, b) <= x
    ensures Load(Marks(g), o, b) <= 2
  {
    var n := |g|;
    LoadAtLeast(w, o, b, w[n]);
    if Count(o, b) >= 3 {
      TimesGrows(w[n], 3, Count(o, b));
      assert false;
    } else if Count(o, b) == 0 {
      EmptyBucket(Marks(g), o, b);
    } else if Count(o, b) == 1 {
      var i := SomeJob(o, b);
      OnlyJob(Marks(g), o, b, i);
    } else {
      var i, j := TwoJobs(o, b);
      assert Load(w, o, b) == w[i] + w[j];
      assert Load(Marks(g), o, b) == Marks(g)[i] + Marks(g)[j];
      NotAlone(w, g, i, least, x, w[j]);
      if j < n {
        NotAlone(w, g, j, least, x, w[i]);
      }
    }
  }

  lemma NotAlone(w: seq<nat>, g: seq<nat>, i: nat, least: nat, x: nat, other: nat)
    requires |w| == |g| + 1 && i < |g| && Descending(w) && least + w[|g|] > x
    requires least <= Load(w[..|g|], g, g[i]) && other >= w[|g|] && w[i] + other <= x
    ensures Marks(g)[i] == 1
  {
    if Count(g, g[i]) == 1 {
      OnlyJob(w[..|g|], g, g[i], i);
    }
  }

  /** A job heavier than a third of the other assignment's heaviest bucket cannot push a greedy
      bucket above it: the marks would not fit. */
  lemma HeavyJobFits(w: seq<nat>, m: nat, g: seq<nat>, o: seq<nat>, least: nat, x: nat)
    requires m > 0 && |w| == |g| + 1 && Descending(w) && Assigns(g, |g|, m)
    requires Assigns(o, |w|, m) && Within(w, o, m, x)
    requires 3 * w[|g|] > x
    requires forall c :: 0 <= c < m ==> least <= Load(w[..|g|], g, c)
    ensures least + w[|g|] <= x
  {
    var n := |g|;
    JobFits(w, o, n);
    if least + w[n] > x {
      var marks := Marks(g);
      assert Sum(marks) == Sum(marks[..n]) + 1;
      forall b | 0 <= b < m ensures Load(marks[..n], g, b) >= 2 {
        if Count(g, b) == 0 {
          EmptyBucket(w[..n], g, b);
        }
        GreedyMarks(g, b);
      }
      LoadsAddUp(marks[..n], g, m);
      SumAtLeast(Loads(marks[..n], g, m), 2);
      forall b | 0 <= b < m ensures Load(marks, o, b) <= 2 {
        OtherMarks(w, g, o, b, least, x);
      }
      LoadsAddUp(marks, o, m);
      SumAtMost(Loads(marks, o, m), 2);
    }
  }

  lemma {:induction false} WithinPrefix(w: seq<nat>, o: seq<nat>, m: nat, x: nat, n: nat)
    requires n <= |w| && Assigns(o, |w|, m) && Within(w, o, m, x)
    ensures Assigns(o[..n], n, m) && Within(w[..n], o[..n], m, x)
  {
    forall b | 0 <= b < m ensures Load(w[..n], o[..n], b) <= x {
      LoadOfPrefix(w, o, b, n);
    }
  }

  lemma BucketIsNearOptimal(w: seq<nat>, m: nat, o: seq<nat>, x: nat, b: nat)
    requires m > 0 && Descending(w) && Assigns(o, |w|, m) && Within(w, o, m, x)
    requires b < m && Count(Greedy(w, m), b) > 0
    ensures 3 * m * Load(w, Greedy(w, m), b) <= (4 * m - 1) * x
  {
    var n := LastJob(w, m, b);
    var least, load := Load(w[..n], Greedy(w[..n], m), b), Load(w, Greedy(w, m), b);
    if 3 * w[n] <= x {
      Averaging(w, m, n, least, load, o, x);
      LightJob(m, load, w[n], x);
    } else {
      WithinPrefix(w, o, m, x, n + 1);
      assert w[..n + 1][..n] == w[..n];
      HeavyJobFits(w[..n + 1], m, Greedy(w[..n], m), o[..n + 1], least, x);
      HeavyJob(m, load, x);
    }
  }

  /** Longest first: the greedy assignment's heaviest bucket is at most (4/3 - 1/(3m)) times that
      of any other assignment to the same number of buckets. */
  lemma GreedyIsNearOptimal(w: seq<nat>, m: nat, o: seq<nat>, x: nat)
    requires m > 0 && Descending(w) && Assigns(o, |w|, m) && Within(w, o, m, x)
    ensures forall b :: 0 <= b < m ==> 3 * m * Load(w, Greedy(w, m), b) <= (4 * m - 1) * x
  {
    forall b | 0 <= b < m ensures 3 * m * Load(w, Greedy(w, m), b) <= (4 * m - 1) * x {
      if Count(Greedy(w, m), b) == 0 {
        EmptyBucket(w, Greedy(w, m), b);
        NoJobsNoLoad(3 * m, 4 * m - 1, x);
      } else {
        BucketIsNearOptimal(w, m, o, x, b);
      }
    }
  }

  lemma LightJob(m: nat, load: nat, job: nat, x: nat)
    requires m > 0 && m * load <= m * x + (m - 1) * job && 3 * job <= x
    ensures 3 * m * load <= (4 * m - 1) * x
  {
    TimesGrows(m - 1, 3 * job, x);
    Regroup(m, load, job, x);
  }

  lemma Regroup(m: nat, load: nat, job: nat, x: nat)
    requires m > 0
    ensures 3 * m * load == 3 * (m * load)
    ensures (m - 1) * (3 * job) == 3 * ((m - 1) * job)
    ensures (4 * m - 1) * x == 3 * (m * x) + (m - 1) * x
  {
  }

  lemma HeavyJob(m: nat, load: nat, x: nat)
    requires m > 0 && load <= x
    ensures 3 * m * load <= (4 * m - 1) * x
  {
    TimesGrows(m, load, x);
    Regroup(m, load, 0, x);
    TimesGrows(m - 1, 0, x);
    Regroup(m, x, 0, x);
  }

  // ----- how many buckets are used ---------------------------------------------------------

  /** With every job of some weight, the first jobs each open a bucket of their own: after `n` jobs the
      first `n` buckets are the ones in use, as far as there are so many. */
  lemma {:induction false} GreedyOpensBuckets(w: seq<nat>, m: nat)
    requires m > 0 && forall i :: 0 <= i < |w| ==> w[i] > 0
    ensures forall b :: 0 <= b < m ==> (Load(w, Greedy(w, m), b) > 0 <==> b < |w|)
  {
    if w != [] {
      var n := |w| - 1;
      var front := w[..n];
      GreedyOpensBuckets(front, m);
      var loads := Loads(front, Greedy(front, m), m);
      var j := ArgMin(loads);
      assert w == front + [w[n]];
      GreedyLoadsSnoc(front, m, w[n], loads, j);
      assert n < m ==> loads[n] == 0;
      forall b | 0 <= b < m ensures Load(w, Greedy(w, m), b) > 0 <==> b < |w| {
        assert Load(w, Greedy(w, m), b) == Loads(w, Greedy(w, m), m)[b] == loads[j := loads[j] + w[n]][b];
        assert loads[b] == Load(front, Greedy(front, m), b);
      }
    }
  }
}
