/** Splitting, joining and stripping strings, as Python does, and SQL `LIKE`. */
module Text {
  import opened Util

  /** The first place of `c`. */
  function IndexOf(s: string, c: char): (i: nat)
    requires c in s
    ensures i < |s| && s[i] == c && forall k :: 0 <= k < i ==> s[k] != c
  {
    if s[0] == c then 0 else
      assert s == [s[0]] + s[1..];
      IndexOf(s[1..], c) + 1
  }

  lemma IndexOfFirst(a: string, c: char, b: string)
    requires c !in a
    ensures c in a + [c] + b && IndexOf(a + [c] + b, c) == |a|
  {
    var s := a + [c] + b;
    assert s[|a|] == c;
    assert forall k :: 0 <= k < |a| ==> s[k] == a[k] && a[k] in a;
  }

  /** `s.split(c)`: always at least one part. */
  function Split(s: string, c: char): (parts: seq<string>)
    ensures parts != []
  {
    if c in s then [s[..IndexOf(s, c)]] + Split(s[IndexOf(s, c) + 1..], c) else [s]
  }

  function Join(parts: seq<string>, c: char): string
    requires parts != []
  {
    if |parts| == 1 then parts[0] else parts[0] + [c] + Join(parts[1..], c)
  }

  predicate Without(parts: seq<string>, c: char) {
    forall i :: 0 <= i < |parts| ==> c !in parts[i]
  }

  lemma SplitFirst(a: string, c: char, b: string)
    requires c !in a
    ensures Split(a + [c] + b, c) == [a] + Split(b, c)
  {
    IndexOfFirst(a, c, b);
    var s := a + [c] + b;
    assert s[..|a|] == a && s[|a| + 1..] == b;
  }

  lemma {:induction false} SplitOfJoin(parts: seq<string>, c: char)
    requires parts != [] && Without(parts, c)
    ensures Split(Join(parts, c), c) == parts
  {
    if |parts| > 1 {
      SplitOfJoin(parts[1..], c);
      SplitFirst(parts[0], c, Join(parts[1..], c));
    }
  }

  lemma {:induction false} JoinOfSplit(s: string, c: char)
    ensures Join(Split(s, c), c) == s
    ensures Without(Split(s, c), c)
    ensures forall i, x :: 0 <= i < |Split(s, c)| && x in Split(s, c)[i] ==> x in s
  {
    if c in s {
      var i := IndexOf(s, c);
      JoinOfSplit(s[i + 1..], c);
      assert s == s[..i] + [c] + s[i + 1..];
      assert c !in s[..i];
      assert Split(s, c)[1..] == Split(s[i + 1..], c);
    }
  }

  /** `str.isspace` of one character. */
  predicate IsSpace(c: char) {
    var n := c as int;
    || 9 <= n <= 13 || 28 <= n <= 32 || n == 0x85 || n == 0xA0 || n == 0x1680 || 0x2000 <= n <= 0x200A
    || n == 0x2028 || n == 0x2029 || n == 0x202F || n == 0x205F || n == 0x3000
  }

  function StripLeft(s: string): string {
    if s != [] && IsSpace(s[0]) then StripLeft(s[1..]) else s
  }

  function StripRight(s: string): string {
    if s != [] && IsSpace(s[|s| - 1]) then StripRight(s[..|s| - 1]) else s
  }

  /** `s.strip()`. */
  function Strip(s: string): string { StripRight(StripLeft(s)) }

  lemma {:induction false} StripLeftMeans(s: string)
    ensures var r := StripLeft(s); (r == [] || !IsSpace(r[0])) && forall x :: x in r ==> x in s
  {
    if s != [] && IsSpace(s[0]) {
      StripLeftMeans(s[1..]);
    }
  }

  lemma {:induction false} StripRightMeans(s: string)
    ensures var r := StripRight(s);
            && (r == [] || (!IsSpace(r[|r| - 1]) && r[0] == s[0])) && |r| <= |s| && forall x :: x in r ==> x in s
  {
    if s != [] && IsSpace(s[|s| - 1]) {
      StripRightMeans(s[..|s| - 1]);
    }
  }

  /** No white space is left at the ends, and no character is new. */
  lemma StripMeans(s: string)
    ensures Stripped(Strip(s)) && forall x :: x in Strip(s) ==> x in s
  {
    StripLeftMeans(s);
    StripRightMeans(StripLeft(s));
  }

  predicate Stripped(s: string) { s == [] || (!IsSpace(s[0]) && !IsSpace(s[|s| - 1])) }

  lemma StripOfStripped(s: string)
    requires Stripped(s)
    ensures Strip(s) == s && Strip(" " + s) == s
  {
    assert (" " + s)[1..] == s;
  }

  lemma {:induction false} StripLeftKeeps(s: string, c: char)
    requires !IsSpace(c) && c in s
    ensures c in StripLeft(s)
  {
    if s != [] && IsSpace(s[0]) {
      assert s == [s[0]] + s[1..];
      StripLeftKeeps(s[1..], c);
    }
  }

  lemma {:induction false} StripRightKeeps(s: string, c: char)
    requires !IsSpace(c) && c in s
    ensures c in StripRight(s)
  {
    if s != [] && IsSpace(s[|s| - 1]) {
      assert s == s[..|s| - 1] + [s[|s| - 1]];
      StripRightKeeps(s[..|s| - 1], c);
    }
  }

  /** Stripping takes away white space only. */
  lemma StripKeeps(s: string, c: char)
    requires !IsSpace(c)
    ensures c in s <==> c in Strip(s)
  {
    StripMeans(s);
    if c in s {
      StripLeftKeeps(s, c);
      StripRightKeeps(StripLeft(s), c);
    }
  }

  lemma LowerKeeps(s: string, c: char)
    requires c !in s && !('a' <= c <= 'z')
    ensures c !in Lower(s)
  {
  }

  lemma LowerTwice(s: string)
    ensures Lower(Lower(s)) == Lower(s)
  {
  }

  lemma LowerStripped(s: string)
    requires Stripped(s)
    ensures Stripped(Lower(s))
  {
  }

  /** SQL `LIKE`: `%` stands for any run of characters, `_` for any one character. */
  predicate Like(s: string, pattern: string)
    decreases |s| + |pattern|
  {
    if pattern == [] then s == []
    else if pattern[0] == '%' then Like(s, pattern[1..]) || (s != [] && Like(s[1..], pattern))
    else s != [] && (pattern[0] == '_' || pattern[0] == s[0]) && Like(s[1..], pattern[1..])
  }

  lemma {:induction false} LikeExact(s: string, pattern: string)
    requires '%' !in pattern && '_' !in pattern
    ensures Like(s, pattern) <==> s == pattern
    decreases |pattern|
  {
    if pattern != [] && s != [] {
      LikeExact(s[1..], pattern[1..]);
      assert pattern == [pattern[0]] + pattern[1..];
      assert s == [s[0]] + s[1..];
    }
  }

  /** `%` matches a run of any length. */
  lemma {:induction false} LikeRun(s: string, pattern: string)
    requires pattern != [] && pattern[0] == '%'
    ensures Like(s, pattern) <==> exists k :: 0 <= k <= |s| && Like(s[k..], pattern[1..])
  {
    assert s[0..] == s;
    if s != [] {
      LikeRun(s[1..], pattern);
      assert forall k :: 0 <= k < |s| ==> s[1..][k..] == s[k + 1..];
      if exists k :: 0 <= k <= |s[1..]| && Like(s[1..][k..], pattern[1..]) {
        var k :| 0 <= k <= |s[1..]| && Like(s[1..][k..], pattern[1..]);
        assert Like(s[k + 1..], pattern[1..]);
      }
      if exists k :: 1 <= k <= |s| && Like(s[k..], pattern[1..]) {
        var k :| 1 <= k <= |s| && Like(s[k..], pattern[1..]);
        assert Like(s[1..][k - 1..], pattern[1..]);
      }
    }
  }

  lemma {:induction false} LikeSuffix(s: string, base: string)
    requires '%' !in base && '_' !in base
    ensures Like(s, "%" + base) <==> EndsWith(s, base)
    decreases |s|
  {
    assert ("%" + base)[1..] == base;
    LikeExact(s, base);
    if s != [] {
      LikeSuffix(s[1..], base);
      if |s| - 1 >= |base| {
        assert s[1..][|s[1..]| - |base|..] == s[|s| - |base|..];
      }
    } else {
      assert EndsWith(s, base) <==> base == [];
    }
  }
}
