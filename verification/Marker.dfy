/**
 The environment-marker evaluator of the wheel preparation (`_drv_bool_expr` of
 lambdas/prepare_cdc_wheels.py): a recursive-descent evaluator with a mutable cursor over the
 tokens, proved against the grammar

   disj := conj ("or" conj)*     conj := atom ("and" atom)*
   atom := "not" atom | "(" disj ")" | "True" | "False"

 This is the and/or/parenthesis fragment of PEP 508, section "Grammar", with `not` added.
 */
module Marker {
  import opened Util

  datatype Token = Lit(b: bool) | And | Or | Not | Open | Close | Other(text: string)

  // ----- the grammar -----------------------------------------------------------------------

  datatype Tree = Const(b: bool) | Neg(t: Tree) | Both(l: Tree, r: Tree) | Either(l: Tree, r: Tree) | Paren(t: Tree)

  function Value(t: Tree): bool {
    match t
    case Const(b) => b
    case Neg(u) => !Value(u)
    case Both(l, r) => Value(l) && Value(r)
    case Either(l, r) => Value(l) || Value(r)
    case Paren(u) => Value(u)
  }

  function Print(t: Tree): (s: seq<Token>)
    ensures s != []
  {
    match t
    case Const(b) => [Lit(b)]
    case Neg(u) => [Not] + Print(u)
    case Both(l, r) => Print(l) + [And] + Print(r)
    case Either(l, r) => Print(l) + [Or] + Print(r)
    case Paren(u) => [Open] + Print(u) + [Close]
  }

  predicate IsAtom(t: Tree)
    decreases t, 0
  {
    match t
    case Const(_) => true
    case Neg(u) => IsAtom(u)
    case Paren(u) => IsDisj(u)
    case _ => false
  }

  predicate IsConj(t: Tree)
    decreases t, 1
  {
    IsAtom(t) || (t.Both? && IsConj(t.l) && IsAtom(t.r))
  }

  predicate IsDisj(t: Tree)
    decreases t, 2
  {
    IsConj(t) || (t.Either? && IsDisj(t.l) && IsConj(t.r))
  }

  /** Any tree, with the parentheses the grammar needs. */
  function AsAtom(t: Tree): (u: Tree)
    ensures IsAtom(u) && Value(u) == Value(t)
  {
    match t
    case Const(_) => t
    case Neg(v) => Neg(AsAtom(v))
    case Both(l, r) =>
      var c := Both(AsAtom(l), AsAtom(r));
      assert IsConj(c.l) && IsConj(c);
      Paren(c)
    case Either(l, r) =>
      var d := Either(AsAtom(l), AsAtom(r));
      assert IsConj(d.l) && IsDisj(d.l) && IsConj(d.r) && IsDisj(d);
      Paren(d)
    case Paren(v) => Paren(AsAtom(v))
  }

  // ----- what the evaluator computes -------------------------------------------------------

  datatype Error = Unbalanced | Unexpected

  type Parsed = Result<(bool, nat), Error>

  predicate At(ts: seq<Token>, i: nat, t: Token) { i < |ts| && ts[i] == t }

  function Atom(ts: seq<Token>, i: nat): (r: Parsed)
    ensures r.Ok? ==> i < r.value.1 <= |ts|
    decreases |ts| - i, 0
  {
    if i >= |ts| then Err(Unexpected)
    else
      match ts[i]
      case Not =>
        (match Atom(ts, i + 1)
         case Ok(v) => Ok((!v.0, v.1))
         case Err(e) => Err(e))
      case Open =>
        (match Disj(ts, i + 1)
         case Ok(v) => if At(ts, v.1, Close) then Ok((v.0, v.1 + 1)) else Err(Unbalanced)
         case Err(e) => Err(e))
      case Lit(b) => Ok((b, i + 1))
      case _ => Err(Unexpected)
  }

  function Conj(ts: seq<Token>, i: nat): (r: Parsed)
    ensures r.Ok? ==> i < r.value.1 <= |ts|
    decreases |ts| - i, 1
  {
    match Atom(ts, i)
    case Ok(v) => MoreConj(ts, v.1, v.0)
    case Err(e) => Err(e)
  }

  function MoreConj(ts: seq<Token>, i: nat, val: bool): (r: Parsed)
    requires i <= |ts|
    ensures r.Ok? ==> i <= r.value.1 <= |ts|
    decreases |ts| - i, 0
  {
    if At(ts, i, And) then
      match Atom(ts, i + 1)
      case Ok(v) => MoreConj(ts, v.1, val && v.0)
      case Err(e) => Err(e)
    else Ok((val, i))
  }

  function Disj(ts: seq<Token>, i: nat): (r: Parsed)
    ensures r.Ok? ==> i < r.value.1 <= |ts|
    decreases |ts| - i, 2
  {
    match Conj(ts, i)
    case Ok(v) => MoreDisj(ts, v.1, v.0)
    case Err(e) => Err(e)
  }

  function MoreDisj(ts: seq<Token>, i: nat, val: bool): (r: Parsed)
    requires i <= |ts|
    ensures r.Ok? ==> i <= r.value.1 <= |ts|
    decreases |ts| - i, 0
  {
    if At(ts, i, Or) then
      match Conj(ts, i + 1)
      case Ok(v) => MoreDisj(ts, v.1, val || v.0)
      case Err(e) => Err(e)
    else Ok((val, i))
  }

  function BoolExpr(ts: seq<Token>): Result<bool, Error> {
    match Disj(ts, 0)
    case Ok(v) => if v.1 < |ts| then Err(Unexpected) else Ok(v.0)
    case Err(e) => Err(e)
  }

  // ----- the cursor ------------------------------------------------------------------------

  /** The closures over `pos[0]`.  The cursor may step past the end of the tokens. */
  class Cursor {
    const tokens: seq<Token>
    var pos: nat

    constructor (ts: seq<Token>)
      ensures tokens == ts && pos == 0
    {
      tokens := ts;
      pos := 0;
    }

    function Peek(): Option<Token>
      reads this
    {
      if pos < |tokens| then Some(tokens[pos]) else None
    }

    method Take() returns (t: Option<Token>)
      modifies this
      ensures t == old(Peek()) && pos == old(pos) + 1
    {
      t := Peek();
      pos := pos + 1;
    }

    method ParseAtom() returns (r: Result<bool, Error>)
      modifies this
      ensures r.Ok? <==> Atom(tokens, old(pos)).Ok?
      ensures r.Ok? ==> Atom(tokens, old(pos)).value == (r.value, pos)
      ensures r.Err? ==> Atom(tokens, old(pos)).error == r.error
      decreases |tokens| - pos, 0
    {
      var t := Take();
      if t == Some(Not) {
        var v := ParseAtom();
        match v {
          case Ok(b) => return Ok(!b);
          case Err(e) => return Err(e);
        }
      }
      if t == Some(Open) {
        var v := ParseDisj();
        if v.Err? {
          return v;
        }
        var close := Take();
        if close != Some(Close) {
          return Err(Unbalanced);
        }
        return v;
      }
      if t.Some? && t.value.Lit? {
        return Ok(t.value.b);
      }
      return Err(Unexpected);
    }

    method ParseConj() returns (r: Result<bool, Error>)
      modifies this
      ensures r.Ok? <==> Conj(tokens, old(pos)).Ok?
      ensures r.Ok? ==> Conj(tokens, old(pos)).value == (r.value, pos)
      ensures r.Err? ==> Conj(tokens, old(pos)).error == r.error
      decreases |tokens| - pos, 1
    {
      r := ParseAtom();
      if r.Err? {
        return;
      }
      while Peek() == Some(And)
        invariant old(pos) < pos <= |tokens| && r.Ok? && Conj(tokens, old(pos)) == MoreConj(tokens, pos, r.value)
        decreases |tokens| - pos
      {
        var _ := Take();
        var rhs := ParseAtom();
        if rhs.Err? {
          return rhs;
        }
        r := Ok(r.value && rhs.value);
      }
    }

    method ParseDisj() returns (r: Result<bool, Error>)
      modifies this
      ensures r.Ok? <==> Disj(tokens, old(pos)).Ok?
      ensures r.Ok? ==> Disj(tokens, old(pos)).value == (r.value, pos)
      ensures r.Err? ==> Disj(tokens, old(pos)).error == r.error
      decreases |tokens| - pos, 2
    {
      r := ParseConj();
      if r.Err? {
        return;
      }
      while Peek() == Some(Or)
        invariant old(pos) < pos <= |tokens| && r.Ok? && Disj(tokens, old(pos)) == MoreDisj(tokens, pos, r.value)
        decreases |tokens| - pos
      {
        var _ := Take();
        var rhs := ParseConj();
        if rhs.Err? {
          return rhs;
        }
        r := Ok(r.value || rhs.value);
      }
    }
  }

  /** `_drv_bool_expr`. */
  method Evaluate(tokens: seq<Token>) returns (r: Result<bool, Error>)
    ensures r == BoolExpr(tokens)
  {
    var c := new Cursor(tokens);
    r := c.ParseDisj();
    if r.Ok? && c.Peek().Some? {
      return Err(Unexpected);
    }
  }

  // ----- soundness: a printed tree evaluates to its value ----------------------------------

  predicate OccursAt(ts: seq<Token>, i: nat, p: seq<Token>) {
    i + |p| <= |ts| && forall k :: 0 <= k < |p| ==> ts[i + k] == p[k]
  }

  lemma OccursParts(ts: seq<Token>, i: nat, a: seq<Token>, b: seq<Token>)
    requires OccursAt(ts, i, a + b)
    ensures OccursAt(ts, i, a) && OccursAt(ts, i + |a|, b)
  {
    forall k | 0 <= k < |a| ensures ts[i + k] == a[k] {
      assert (a + b)[k] == a[k];
    }
    forall k | 0 <= k < |b| ensures ts[i + |a| + k] == b[k] {
      assert ts[i + (|a| + k)] == (a + b)[|a| + k];
    }
  }

  /** Where the parts of `left op right` are. */
  lemma BinaryParts(ts: seq<Token>, i: nat, l: seq<Token>, op: Token, r: seq<Token>)
    requires OccursAt(ts, i, l + [op] + r)
    ensures OccursAt(ts, i, l) && At(ts, i + |l|, op) && OccursAt(ts, i + |l| + 1, r)
  {
    OccursParts(ts, i, l + [op], r);
    OccursParts(ts, i, l, [op]);
    assert ts[i + |l| + 0] == [op][0];
  }

  lemma {:induction false} AtomOfPrinted(ts: seq<Token>, i: nat, t: Tree)
    requires IsAtom(t) && OccursAt(ts, i, Print(t))
    ensures Atom(ts, i) == Ok((Value(t), i + |Print(t)|))
    decreases t, 0
  {
    assert ts[i + 0] == Print(t)[0];
    match t
    case Const(_) =>
    case Neg(u) =>
      OccursParts(ts, i, [Not], Print(u));
      AtomOfPrinted(ts, i + 1, u);
    case Paren(u) =>
      OccursParts(ts, i, [Open] + Print(u), [Close]);
      OccursParts(ts, i, [Open], Print(u));
      assert ts[i + |[Open] + Print(u)| + 0] == [Close][0];
      DisjOfPrinted(ts, i + 1, u);
  }

  lemma {:induction false} ConjOfPrinted(ts: seq<Token>, i: nat, t: Tree)
    requires IsConj(t) && OccursAt(ts, i, Print(t))
    ensures Conj(ts, i) == MoreConj(ts, i + |Print(t)|, Value(t))
    decreases t, 1
  {
    if IsAtom(t) {
      AtomOfPrinted(ts, i, t);
    } else {
      BinaryParts(ts, i, Print(t.l), And, Print(t.r));
      ConjOfPrinted(ts, i, t.l);
      AtomOfPrinted(ts, i + |Print(t.l)| + 1, t.r);
    }
  }

  lemma {:induction false} DisjOfPrinted(ts: seq<Token>, i: nat, t: Tree)
    requires IsDisj(t) && OccursAt(ts, i, Print(t)) && !At(ts, i + |Print(t)|, And)
    ensures Disj(ts, i) == MoreDisj(ts, i + |Print(t)|, Value(t))
    decreases t, 2
  {
    if IsConj(t) {
      ConjOfPrinted(ts, i, t);
    } else {
      BinaryParts(ts, i, Print(t.l), Or, Print(t.r));
      DisjOfPrinted(ts, i, t.l);
      ConjOfPrinted(ts, i + |Print(t.l)| + 1, t.r);
    }
  }

  // ----- completeness: an accepted list has a derivation -----------------------------------

  /** `t` derives the tokens from `i` to `j`, with value `v`. */
  ghost predicate Derives(ts: seq<Token>, i: nat, j: nat, t: Tree, v: bool) {
    i <= j <= |ts| && ts[i..j] == Print(t) && Value(t) == v
  }

  lemma {:induction false} AtomDerivation(ts: seq<Token>, i: nat) returns (t: Tree)
    requires Atom(ts, i).Ok?
    ensures IsAtom(t) && Derives(ts, i, Atom(ts, i).value.1, t, Atom(ts, i).value.0)
    decreases |ts| - i, 0
  {
    var j := Atom(ts, i).value.1;
    match ts[i]
    case Lit(b) =>
      t := Const(b);
    case Not =>
      var u := AtomDerivation(ts, i + 1);
      t := Neg(u);
      assert ts[i..j] == [ts[i]] + ts[i + 1..j];
    case Open =>
      var u := DisjDerivation(ts, i + 1);
      t := Paren(u);
      assert ts[i] == Open && ts[j - 1] == Close;
      assert ts[i..j] == [ts[i]] + ts[i + 1..j - 1] + [ts[j - 1]];
  }

  lemma {:induction false} MoreConjDerivation(ts: seq<Token>, i: nat, j: nat, l: Tree, val: bool) returns (t: Tree)
    requires j <= |ts| && MoreConj(ts, j, val).Ok? && IsConj(l) && Derives(ts, i, j, l, val)
    ensures IsConj(t) && Derives(ts, i, MoreConj(ts, j, val).value.1, t, MoreConj(ts, j, val).value.0)
    decreases |ts| - j, 0
  {
    if At(ts, j, And) {
      var r := AtomDerivation(ts, j + 1);
      var v := Atom(ts, j + 1).value;
      assert ts[i..v.1] == ts[i..j] + [And] + ts[j + 1..v.1];
      t := MoreConjDerivation(ts, i, v.1, Both(l, r), val && v.0);
    } else {
      t := l;
    }
  }

  lemma {:induction false} ConjDerivation(ts: seq<Token>, i: nat) returns (t: Tree)
    requires Conj(ts, i).Ok?
    ensures IsConj(t) && Derives(ts, i, Conj(ts, i).value.1, t, Conj(ts, i).value.0)
    decreases |ts| - i, 1
  {
    var a := AtomDerivation(ts, i);
    t := MoreConjDerivation(ts, i, Atom(ts, i).value.1, a, Atom(ts, i).value.0);
  }

  lemma {:induction false} MoreDisjDerivation(ts: seq<Token>, i: nat, j: nat, l: Tree, val: bool) returns (t: Tree)
    requires j <= |ts| && MoreDisj(ts, j, val).Ok? && IsDisj(l) && Derives(ts, i, j, l, val)
    ensures IsDisj(t) && Derives(ts, i, MoreDisj(ts, j, val).value.1, t, MoreDisj(ts, j, val).value.0)
    decreases |ts| - j, 0
  {
    if At(ts, j, Or) {
      var r := ConjDerivation(ts, j + 1);
      var v := Conj(ts, j + 1).value;
      assert ts[i..v.1] == ts[i..j] + [Or] + ts[j + 1..v.1];
      t := MoreDisjDerivation(ts, i, v.1, Either(l, r), val || v.0);
    } else {
      t := l;
    }
  }

  lemma {:induction false} DisjDerivation(ts: seq<Token>, i: nat) returns (t: Tree)
    requires Disj(ts, i).Ok?
    ensures IsDisj(t) && Derives(ts, i, Disj(ts, i).value.1, t, Disj(ts, i).value.0)
    decreases |ts| - i, 2
  {
    var c := ConjDerivation(ts, i);
    t := MoreDisjDerivation(ts, i, Conj(ts, i).value.1, c, Conj(ts, i).value.0);
  }

  /** The evaluator is the grammar: it accepts a token list with a value exactly when some
      derivation of that list has that value. */
  lemma EvaluatorIsTheGrammar(ts: seq<Token>, v: bool)
    ensures BoolExpr(ts) == Ok(v) <==> exists t :: IsDisj(t) && Print(t) == ts && Value(t) == v
  {
    if BoolExpr(ts) == Ok(v) {
      var t := DisjDerivation(ts, 0);
      assert ts[0..|ts|] == ts;
      assert IsDisj(t) && Print(t) == ts && Value(t) == v;
    }
    if t :| IsDisj(t) && Print(t) == ts && Value(t) == v {
      DisjOfPrinted(ts, 0, t);
    }
  }

  /** Printing any and/or/not/parenthesis tree and evaluating the tokens gives its truth value. */
  lemma PrintedTreeEvaluates(t: Tree)
    ensures BoolExpr(Print(AsAtom(t))) == Ok(Value(t))
    ensures IsDisj(t) ==> BoolExpr(Print(t)) == Ok(Value(t))
  {
    EvaluatorIsTheGrammar(Print(AsAtom(t)), Value(t));
    assert IsDisj(AsAtom(t));
    if IsDisj(t) {
      EvaluatorIsTheGrammar(Print(t), Value(t));
    }
  }
}
