/** Sets of names in alphabetical order: Python's `sorted(set)`. */
module Names {
  import opened Util

  type Name = string

  predicate InOrder(s: seq<Name>) { forall i, j :: 0 <= i < j < |s| ==> Before(s[i], s[j]) }

  function SetOf(s: seq<Name>): set<Name> { set i | 0 <= i < |s| :: s[i] }

  lemma InSetOf(s: seq<Name>, x: Name)
    ensures x in SetOf(s) <==> x in s
  {
  }

  predicate Distinct(s: seq<Name>) { forall i, j :: 0 <= i < j < |s| ==> s[i] != s[j] }

  function Place(s: seq<Name>, x: Name): seq<Name> {
    if s == [] || Before(s[|s| - 1], x) then s + [x] else Place(s[..|s| - 1], x) + [s[|s| - 1]]
  }

  lemma {:induction false} PlaceHas(s: seq<Name>, x: Name)
    ensures forall y :: y in Place(s, x) <==> y in s || y == x
  {
    if s != [] && !Before(s[|s| - 1], x) {
      PlaceHas(s[..|s| - 1], x);
    }
  }

  lemma {:induction false} PlaceKeeps(s: seq<Name>, x: Name)
    requires InOrder(s) && x !in s
    ensures InOrder(Place(s, x))
  {
    if s != [] {
      var front, last := s[..|s| - 1], s[|s| - 1];
      BeforeIsTotal(last, x);
      if Before(last, x) {
        forall i | 0 <= i < |s| ensures Before(s[i], x) {
          if i < |s| - 1 {
            BeforeIsTransitive(s[i], last, x);
          }
        }
      } else {
        PlaceKeeps(front, x);
        PlaceHas(front, x);
        var r := Place(front, x);
        forall i | 0 <= i < |r| ensures Before(r[i], last) {
          assert r[i] in r;
          if r[i] != x {
            var k :| 0 <= k < |front| && front[k] == r[i];
          }
        }
      }
    }
  }

  /** `sorted(names)`. */
  method Sort(names: set<Name>) returns (s: seq<Name>)
    ensures InOrder(s) && SetOf(s) == names
  {
    s := [];
    var left := names;
    while left != {}
      invariant left <= names && InOrder(s) && forall y :: y in s <==> y in names - left
      decreases |left|
    {
      var x :| x in left;
      PlaceKeeps(s, x);
      PlaceHas(s, x);
      s := Place(s, x);
      left := left - {x};
    }
    assert SetOf(s) == names by {
      forall y ensures y in SetOf(s) <==> y in names {
        assert y in SetOf(s) <==> y in s;
      }
    }
  }

  lemma OrderedIsDistinct(s: seq<Name>)
    requires InOrder(s)
    ensures Distinct(s)
  {
    forall i, j | 0 <= i < j < |s| ensures s[i] != s[j] {
      BeforeIsTotal(s[i], s[j]);
    }
  }

  lemma EmptyList(s: seq<Name>)
    ensures SetOf(s) == {} <==> s == []
  {
    if s != [] {
      assert s[0] in SetOf(s);
    }
  }

  lemma SetOfSnoc(s: seq<Name>, x: Name)
    ensures SetOf(s + [x]) == SetOf(s) + {x}
  {
    forall y ensures y in SetOf(s + [x]) <==> y in SetOf(s) + {x} {
      InSetOf(s + [x], y);
      InSetOf(s, y);
    }
  }

  lemma {:induction false} SizeOfDistinct(s: seq<Name>)
    requires Distinct(s)
    ensures |SetOf(s)| == |s|
  {
    if s == [] {
      EmptyList(s);
    } else {
      var front, x := s[..|s| - 1], s[|s| - 1];
      SizeOfDistinct(front);
      assert front + [x] == s;
      SetOfSnoc(front, x);
      InSetOf(front, x);
    }
  }

  /** A set has one alphabetical list. */
  lemma {:induction false} OrderIsUnique(a: seq<Name>, b: seq<Name>)
    requires InOrder(a) && InOrder(b) && SetOf(a) == SetOf(b)
    ensures a == b
  {
    if a == [] || b == [] {
      EmptyList(a);
      EmptyList(b);
    } else {
      var x, y := a[|a| - 1], b[|b| - 1];
      LastIsLast(a, b);
      LastIsLast(b, a);
      BeforeIsTotal(x, y);
      WithoutLast(a);
      WithoutLast(b);
      OrderIsUnique(a[..|a| - 1], b[..|b| - 1]);
    }
  }

  lemma LastIsLast(a: seq<Name>, b: seq<Name>)
    requires InOrder(a) && InOrder(b) && a != [] && b != [] && SetOf(a) == SetOf(b)
    ensures a[|a| - 1] == b[|b| - 1] || Before(a[|a| - 1], b[|b| - 1])
  {
    assert a[|a| - 1] in SetOf(a);
    var i :| 0 <= i < |b| && b[i] == a[|a| - 1];
  }

  lemma WithoutLast(a: seq<Name>)
    requires InOrder(a) && a != []
    ensures SetOf(a[..|a| - 1]) == SetOf(a) - {a[|a| - 1]}
  {
    OrderedIsDistinct(a);
    var front := a[..|a| - 1];
    forall x ensures x in SetOf(front) <==> x in SetOf(a) && x != a[|a| - 1] {
      if x in SetOf(front) {
        var i :| 0 <= i < |front| && front[i] == x;
        assert a[i] == x;
      }
      if x in SetOf(a) && x != a[|a| - 1] {
        var i :| 0 <= i < |a| && a[i] == x;
        assert front[i] == x;
      }
    }
  }

  ghost function Sorted(names: set<Name>): (s: seq<Name>)
    ensures InOrder(s) && SetOf(s) == names
  {
    SortedExists(names);
    var s :| InOrder(s) && SetOf(s) == names;
    s
  }

  lemma {:induction false} SortedExists(names: set<Name>)
    ensures exists s :: InOrder(s) && SetOf(s) == names
    decreases |names|
  {
    if names == {} {
      assert InOrder([]) && SetOf([]) == names;
    } else {
      var x :| x in names;
      SortedExists(names - {x});
      var s :| InOrder(s) && SetOf(s) == names - {x};
      InSetOf(s, x);
      PlaceKeeps(s, x);
      PlaceHas(s, x);
      SetOfPlace(s, x);
    }
  }

  lemma SetOfPlace(s: seq<Name>, x: Name)
    ensures SetOf(Place(s, x)) == SetOf(s) + {x}
  {
    PlaceHas(s, x);
    forall y ensures y in SetOf(Place(s, x)) <==> y in SetOf(s) + {x} {
      assert y in SetOf(Place(s, x)) <==> y in Place(s, x);
      assert y in SetOf(s) <==> y in s;
    }
  }
}
