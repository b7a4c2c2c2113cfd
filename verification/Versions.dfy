/**
 The version specifiers of the wheel preparation (`_drv_cmp` and `_drv_satisfies` of
 lambdas/prepare_cdc_wheels.py) on release segments.
 */
module Versions {
  import opened Util

  type Release = seq<nat>

  function Zeros(n: nat): (z: Release)
    ensures |z| == n && forall i :: 0 <= i < n ==> z[i] == 0
  {
    seq(n, _ => 0)
  }

  function Pad(a: Release, n: nat): (r: Release)
    ensures |r| == Max(|a|, n)
    ensures forall i :: 0 <= i < |r| ==> r[i] == Digit(a, i)
  {
    a + Zeros(Max(0, n - |a|))
  }

  /** A missing part counts as zero. */
  function Digit(a: Release, i: nat): nat { if i < |a| then a[i] else 0 }

  /** Python's comparison of tuples of one length. */
  function TupleCmp(a: Release, b: Release): int
    requires |a| == |b|
  {
    if a == [] then 0 else if a[0] < b[0] then -1 else if a[0] > b[0] then 1 else TupleCmp(a[1..], b[1..])
  }

  /** `_drv_cmp`. */
  function Cmp(a: Release, b: Release): int {
    var n := Max(|a|, |b|);
    TupleCmp(Pad(a, n), Pad(b, n))
  }

  /** The first part in which two releases differ decides. */
  predicate DiffersAt(a: Release, b: Release, j: nat) {
    Digit(a, j) < Digit(b, j) && forall i :: 0 <= i < j ==> Digit(a, i) == Digit(b, i)
  }

  ghost predicate Less(a: Release, b: Release) { exists j: nat :: DiffersAt(a, b, j) }

  ghost predicate Same(a: Release, b: Release) { forall i: nat :: Digit(a, i) == Digit(b, i) }

  lemma {:induction false} TupleDecides(a: Release, b: Release) returns (j: nat)
    requires |a| == |b|
    ensures TupleCmp(a, b) == 0 ==> a == b
    ensures TupleCmp(a, b) != 0 ==> j < |a| && forall i :: 0 <= i < j ==> a[i] == b[i]
    ensures TupleCmp(a, b) != 0 ==> (TupleCmp(a, b) == -1 && a[j] < b[j]) || (TupleCmp(a, b) == 1 && a[j] > b[j])
  {
    j := 0;
    if a != [] && a[0] == b[0] {
      var k := TupleDecides(a[1..], b[1..]);
      assert a == [a[0]] + a[1..] && b == [b[0]] + b[1..];
      j := k + 1;
      if TupleCmp(a, b) != 0 {
        forall i | 0 <= i < j ensures a[i] == b[i] {
          assert i > 0 ==> a[1..][i - 1] == b[1..][i - 1];
        }
      }
    }
  }

  /** The comparison is that order on releases without end: trailing zeros never matter. */
  lemma CmpMeans(a: Release, b: Release)
    ensures Cmp(a, b) == -1 || Cmp(a, b) == 0 || Cmp(a, b) == 1
    ensures Cmp(a, b) == -1 <==> Less(a, b)
    ensures Cmp(a, b) == 1 <==> Less(b, a)
    ensures Cmp(a, b) == 0 <==> Same(a, b)
  {
    var n := Max(|a|, |b|);
    var pa, pb := Pad(a, n), Pad(b, n);
    var j := TupleDecides(pa, pb);
    assert forall i :: 0 <= i < n ==> pa[i] == Digit(a, i) && pb[i] == Digit(b, i);
    if Cmp(a, b) == -1 {
      assert DiffersAt(a, b, j);
    } else if Cmp(a, b) == 1 {
      assert DiffersAt(b, a, j);
    } else {
      assert Same(a, b);
    }
    OnlyOne(a, b);
  }

  lemma OnlyOne(a: Release, b: Release)
    ensures !(Less(a, b) && Less(b, a)) && !(Less(a, b) && Same(a, b)) && !(Less(b, a) && Same(a, b))
  {
    assert forall j: nat, k: nat :: DiffersAt(a, b, j) ==> !DiffersAt(b, a, k);
  }

  lemma LessIsTransitive(a: Release, b: Release, c: Release)
    requires Less(a, b) && Less(b, c)
    ensures Less(a, c)
  {
    var j: nat :| DiffersAt(a, b, j);
    var k: nat :| DiffersAt(b, c, k);
    assert DiffersAt(a, c, if j < k then j else k);
  }

  // ----- specifiers ------------------------------------------------------------------------

  datatype Clause =
    | Eq(target: Release) | Ne(target: Release) | Ge(target: Release) | Le(target: Release)
    | Gt(target: Release) | Lt(target: Release) | Compatible(target: Release)
    | EqAny(prefix: Release) | NeAny(prefix: Release)
    | Malformed

  /** A clause `_drv_satisfies` refuses: not a specifier, or `~=` with fewer than two parts. */
  predicate Refused(c: Clause) { c.Malformed? || (c.Compatible? && |c.target| < 2) }

  predicate StartsWith(v: Release, pre: Release) { Pad(v, |pre|)[..|pre|] == pre }

  predicate Holds(v: Release, c: Clause)
    requires !Refused(c)
  {
    match c
    case Eq(t) => Cmp(v, t) == 0
    case Ne(t) => Cmp(v, t) != 0
    case Ge(t) => Cmp(v, t) >= 0
    case Le(t) => Cmp(v, t) <= 0
    case Gt(t) => Cmp(v, t) > 0
    case Lt(t) => Cmp(v, t) < 0
    case Compatible(t) => Cmp(v, t) >= 0 && StartsWith(v, t[..|t| - 1])
    case EqAny(p) => StartsWith(v, p)
    case NeAny(p) => !StartsWith(v, p)
  }

  /** The next release of the same length. */
  function Bump(p: Release): Release
    requires p != []
  {
    p[..|p| - 1] + [p[|p| - 1] + 1]
  }

  lemma PrefixDigits(v: Release, p: Release)
    ensures StartsWith(v, p) <==> forall i :: 0 <= i < |p| ==> Digit(v, i) == p[i]
  {
    var head := Pad(v, |p|)[..|p|];
    assert forall i :: 0 <= i < |p| ==> head[i] == Digit(v, i);
    if forall i :: 0 <= i < |p| ==> Digit(v, i) == p[i] {
      assert head == p;
    }
  }

  /** What a clause asks of a version, in the order by first difference: a part left out is zero. */
  ghost predicate Meets(v: Release, c: Clause)
    requires !Refused(c)
  {
    match c
    case Eq(t) => Same(v, t)
    case Ne(t) => !Same(v, t)
    case Ge(t) => Less(t, v) || Same(v, t)
    case Le(t) => Less(v, t) || Same(v, t)
    case Gt(t) => Less(t, v)
    case Lt(t) => Less(v, t)
    case Compatible(t) => !Less(v, t) && forall i :: 0 <= i < |t| - 1 ==> Digit(v, i) == t[i]
    case EqAny(p) => forall i :: 0 <= i < |p| ==> Digit(v, i) == p[i]
    case NeAny(p) => exists i :: 0 <= i < |p| && Digit(v, i) != p[i]
  }

  lemma HoldsMeans(v: Release, c: Clause)
    requires !Refused(c)
    ensures Holds(v, c) <==> Meets(v, c)
  {
    if c.EqAny? || c.NeAny? {
      PrefixDigits(v, c.prefix);
    } else {
      CmpMeans(v, c.target);
      if c.Compatible? {
        PrefixDigits(v, c.target[..|c.target| - 1]);
      }
    }
  }

  /** `_drv_satisfies`: the clauses in order; the first one that fails ends the scan, so a refused
      clause behind it goes unseen. */
  method Satisfies(v: Release, clauses: seq<Clause>) returns (r: Result<bool, nat>)
    ensures r == Ok(true) <==> forall i :: 0 <= i < |clauses| ==> !Refused(clauses[i]) && Meets(v, clauses[i])
    ensures r.Err? ==>
              && r.error < |clauses| && Refused(clauses[r.error])
              && forall i :: 0 <= i < r.error ==> !Refused(clauses[i]) && Meets(v, clauses[i])
    ensures r == Ok(false) ==> exists i :: 0 <= i < |clauses| && FailsFirst(v, clauses, i)
  {
    for i := 0 to |clauses|
      invariant forall k :: 0 <= k < i ==> !Refused(clauses[k]) && Meets(v, clauses[k])
    {
      if Refused(clauses[i]) {
        return Err(i);
      }
      HoldsMeans(v, clauses[i]);
      if !Holds(v, clauses[i]) {
        assert FailsFirst(v, clauses, i);
        return Ok(false);
      }
    }
    r := Ok(true);
  }

  ghost predicate FailsFirst(v: Release, clauses: seq<Clause>, i: nat) {
    && i < |clauses| && !Refused(clauses[i]) && !Meets(v, clauses[i])
    && forall k :: 0 <= k < i ==> !Refused(clauses[k]) && Meets(v, clauses[k])
  }

  /** A prefix match is a half-open interval of releases. */
  lemma PrefixIsAnInterval(v: Release, p: Release)
    requires p != []
    ensures StartsWith(v, p) <==> Cmp(v, p) >= 0 && Cmp(v, Bump(p)) < 0
  {
    PrefixDigits(v, p);
    CmpMeans(v, p);
    CmpMeans(v, Bump(p));
    var last := |p| - 1;
    assert forall i :: 0 <= i < last ==> Digit(Bump(p), i) == Digit(p, i);
    if StartsWith(v, p) {
      assert DiffersAt(v, Bump(p), last);
      assert forall j: nat :: j < |p| ==> !DiffersAt(v, p, j);
    } else if Less(v, Bump(p)) {
      BelowBump(v, p);
    }
  }

  /** Below the next release but not in the prefix: below the prefix. */
  lemma BelowBump(v: Release, p: Release)
    requires p != [] && Less(v, Bump(p)) && !StartsWith(v, p)
    ensures Less(v, p)
  {
    PrefixDigits(v, p);
    var k :| 0 <= k < |p| && Digit(v, k) != p[k];
    FirstDifference(v, p, k);
    var j: nat :| j <= k && (DiffersAt(v, p, j) || DiffersAt(p, v, j));
    var m: nat :| DiffersAt(v, Bump(p), m);
    AboveIsNotBelowBump(v, p, j, m);
  }

  lemma AboveIsNotBelowBump(v: Release, p: Release, j: nat, m: nat)
    requires j < |p|
    ensures DiffersAt(p, v, j) ==> !DiffersAt(v, Bump(p), m)
  {
    var b := Bump(p);
    assert Digit(b, |p| - 1) == p[|p| - 1] + 1;
    assert forall i: nat :: i < |p| - 1 ==> Digit(b, i) == Digit(p, i);
    assert forall i: nat :: i >= |p| ==> Digit(b, i) == 0;
  }

  lemma FirstDifference(v: Release, p: Release, k: nat)
    requires Digit(v, k) != Digit(p, k)
    ensures exists j: nat :: j <= k && (DiffersAt(v, p, j) || DiffersAt(p, v, j))
  {
    if forall i :: 0 <= i < k ==> Digit(v, i) == Digit(p, i) {
      assert DiffersAt(v, p, k) || DiffersAt(p, v, k);
    } else {
      var i :| 0 <= i < k && Digit(v, i) != Digit(p, i);
      FirstDifference(v, p, i);
    }
  }

  /** The compatible release `~= t` is the half-open interval from `t` to the next release of its
      prefix. */
  lemma CompatibleIsAnInterval(v: Release, t: Release)
    requires |t| >= 2
    ensures Holds(v, Compatible(t)) <==> Holds(v, Ge(t)) && Holds(v, Lt(Bump(t[..|t| - 1])))
  {
    var p := t[..|t| - 1];
    PrefixIsAnInterval(v, p);
    CmpMeans(v, t);
    CmpMeans(v, p);
    if Cmp(v, t) >= 0 && Less(v, p) {
      PrefixIsNotAbove(p, t);
      CmpMeans(p, t);
      SandwichedBelow(v, p, t);
    }
  }

  lemma PrefixIsNotAbove(p: Release, t: Release)
    requires |p| <= |t| && t[..|p|] == p
    ensures !Less(t, p)
  {
    assert forall j :: 0 <= j < |p| ==> t[..|p|][j] == t[j] == Digit(t, j);
  }

  lemma SandwichedBelow(v: Release, p: Release, t: Release)
    requires Less(v, p) && !Less(t, p)
    ensures Less(v, t)
  {
    CmpMeans(p, t);
    if Less(p, t) {
      LessIsTransitive(v, p, t);
    } else {
      var j :| DiffersAt(v, p, j);
      assert DiffersAt(v, t, j);
    }
  }
}
