/** Equations between literals and placeholders, and when they have a solution. */
module Equations {

  /** A literal segment, or a placeholder of the left or the right name. */
  datatype Term = Fixed(text: string) | Var(left: bool, key: string)

  type Equation = (Term, Term)

  predicate Joined(eqs: seq<Equation>, s: Term, t: Term) {
    (s, t) in eqs || (t, s) in eqs
  }

  ghost predicate IsChain(eqs: seq<Equation>, p: seq<Term>) {
    p != [] && forall i :: 0 <= i < |p| - 1 ==> Joined(eqs, p[i], p[i + 1])
  }

  /** Equations lead from s to t. */
  ghost predicate Connected(eqs: seq<Equation>, s: Term, t: Term) {
    exists p :: IsChain(eqs, p) && p[0] == s && p[|p| - 1] == t
  }

  lemma ConnectedSelf(eqs: seq<Equation>, s: Term)
    ensures Connected(eqs, s, s)
  {
    assert IsChain(eqs, [s]);
  }

  lemma ConnectedStep(eqs: seq<Equation>, r: Term, s: Term, t: Term)
    requires Joined(eqs, r, s) && Connected(eqs, s, t)
    ensures Connected(eqs, r, t)
  {
    var p :| IsChain(eqs, p) && p[0] == s && p[|p| - 1] == t;
    assert IsChain(eqs, [r] + p);
  }

  lemma ConnectedThenStep(eqs: seq<Equation>, r: Term, s: Term, t: Term)
    requires Connected(eqs, r, s) && Joined(eqs, s, t)
    ensures Connected(eqs, r, t)
  {
    var p :| IsChain(eqs, p) && p[0] == r && p[|p| - 1] == s;
    assert IsChain(eqs, p + [t]);
  }

  lemma {:induction false} ChainBack(eqs: seq<Equation>, p: seq<Term>)
    requires IsChain(eqs, p)
    ensures Connected(eqs, p[|p| - 1], p[0])
    decreases |p|
  {
    if |p| == 1 {
      ConnectedSelf(eqs, p[0]);
    } else {
      ChainBack(eqs, p[1..]);
      ConnectedThenStep(eqs, p[|p| - 1], p[1], p[0]);
    }
  }

  lemma ConnectedBack(eqs: seq<Equation>, s: Term, t: Term)
    requires Connected(eqs, s, t)
    ensures Connected(eqs, t, s)
  {
    var p :| IsChain(eqs, p) && p[0] == s && p[|p| - 1] == t;
    ChainBack(eqs, p);
  }

  lemma {:induction false} ChainJoin(eqs: seq<Equation>, p: seq<Term>, t: Term)
    requires IsChain(eqs, p) && Connected(eqs, p[|p| - 1], t)
    ensures Connected(eqs, p[0], t)
    decreases |p|
  {
    if |p| > 1 {
      ChainJoin(eqs, p[1..], t);
      ConnectedStep(eqs, p[0], p[1], t);
    }
  }

  lemma ConnectedThrough(eqs: seq<Equation>, r: Term, s: Term, t: Term)
    requires Connected(eqs, r, s) && Connected(eqs, s, t)
    ensures Connected(eqs, r, t)
  {
    var p :| IsChain(eqs, p) && p[0] == r && p[|p| - 1] == s;
    ChainJoin(eqs, p, t);
  }

  ghost predicate Solves<T(!new)>(value: Term -> T, eqs: seq<Equation>) {
    forall e :: e in eqs ==> value(e.0) == value(e.1)
  }

  lemma {:induction false} ChainAgrees<T(!new)>(value: Term -> T, eqs: seq<Equation>, p: seq<Term>)
    requires Solves(value, eqs) && IsChain(eqs, p)
    ensures value(p[0]) == value(p[|p| - 1])
    decreases |p|
  {
    if |p| > 1 {
      ChainAgrees(value, eqs, p[1..]);
      assert Joined(eqs, p[0], p[1]);
    }
  }

  lemma ConnectedAgree<T(!new)>(value: Term -> T, eqs: seq<Equation>, s: Term, t: Term)
    requires Solves(value, eqs) && Connected(eqs, s, t)
    ensures value(s) == value(t)
  {
    var p :| IsChain(eqs, p) && p[0] == s && p[|p| - 1] == t;
    ChainAgrees(value, eqs, p);
  }

  const MAX_ENTITY_ID := 64

  /** No two literals are equated, and no placeholder with a literal too long for an entity id. */
  ghost predicate Agreeable(eqs: seq<Equation>) {
    && (forall s, t :: Connected(eqs, Fixed(s), Fixed(t)) ==> s == t)
    && (forall v: Term, s :: v.Var? && Connected(eqs, v, Fixed(s)) ==> |s| <= MAX_ENTITY_ID)
  }

  /** The literal a term is equated with, if there is one. */
  ghost function Literal(eqs: seq<Equation>, t: Term): string {
    if exists s :: Connected(eqs, t, Fixed(s)) then
      var s :| Connected(eqs, t, Fixed(s));
      s
    else "x"
  }

  lemma LiteralOfFixed(eqs: seq<Equation>, s: string)
    requires Agreeable(eqs)
    ensures Literal(eqs, Fixed(s)) == s
  {
    ConnectedSelf(eqs, Fixed(s));
  }

  lemma LiteralsAgree(eqs: seq<Equation>, s: Term, t: Term)
    requires Agreeable(eqs) && Connected(eqs, s, t)
    ensures Literal(eqs, s) == Literal(eqs, t)
  {
    ConnectedBack(eqs, s, t);
    if x :| Connected(eqs, s, Fixed(x)) {
      ConnectedThrough(eqs, t, s, Fixed(x));
      BothLiterals(eqs, s, t);
    } else if x :| Connected(eqs, t, Fixed(x)) {
      ConnectedThrough(eqs, s, t, Fixed(x));
    }
  }

  lemma BothLiterals(eqs: seq<Equation>, s: Term, t: Term)
    requires Agreeable(eqs) && Connected(eqs, s, t)
    requires exists x :: Connected(eqs, s, Fixed(x))
    requires exists x :: Connected(eqs, t, Fixed(x))
    ensures Literal(eqs, s) == Literal(eqs, t)
  {
    var x, y := Literal(eqs, s), Literal(eqs, t);
    assert Connected(eqs, s, Fixed(x)) && Connected(eqs, t, Fixed(y));
    ConnectedBack(eqs, s, Fixed(x));
    ConnectedThrough(eqs, Fixed(x), s, t);
    ConnectedThrough(eqs, Fixed(x), t, Fixed(y));
  }

  lemma LiteralSolves(eqs: seq<Equation>)
    requires Agreeable(eqs)
    ensures Solves((t: Term) => Literal(eqs, t), eqs)
  {
    forall e | e in eqs ensures Literal(eqs, e.0) == Literal(eqs, e.1) {
      ConnectedSelf(eqs, e.1);
      ConnectedStep(eqs, e.0, e.1, e.1);
      LiteralsAgree(eqs, e.0, e.1);
    }
  }
}
