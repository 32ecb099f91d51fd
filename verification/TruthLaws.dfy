// Three-valued logic (evalTruth in internal/exec/truth.go): the loops over AND and OR, what they decide, and NOT.
module TruthLaws {
  import opened Option
  import opened Fold
  import opened Tds
  import opened Exec

  ghost predicate AnyIs(lib: Library, s: Site, es: seq<Expr>, t: Truth) {
    exists c :: c in es && EvalTruth(lib, s.env, s.idx, s.row, c) == t
  }

  lemma SomeMore(lib: Library, s: Site, es: seq<Expr>, t: Truth)
    requires es != []
    ensures AnyIs(lib, s, es, t) <==> EvalTruth(lib, s.env, s.idx, s.row, es[0]) == t || AnyIs(lib, s, es[1..], t)
  {
    assert es == [es[0]] + es[1..];
  }

  // AND is FALSE on any FALSE operand, otherwise UNKNOWN on any UNKNOWN one, otherwise TRUE.
  lemma {:induction false} AndDecides(lib: Library, s: Site, es: seq<Expr>)
    ensures EvalAnd(lib, s.env, s.idx, s.row, es) ==
      if AnyIs(lib, s, es, False) then False else if AnyIs(lib, s, es, Unknown) then Unknown else True
  {
    if es != [] {
      AndDecides(lib, s, es[1..]);
      SomeMore(lib, s, es, False);
      SomeMore(lib, s, es, Unknown);
    }
  }

  // OR is TRUE on any TRUE operand, otherwise UNKNOWN on any UNKNOWN one, otherwise FALSE.
  lemma {:induction false} OrDecides(lib: Library, s: Site, es: seq<Expr>)
    ensures EvalOr(lib, s.env, s.idx, s.row, es) ==
      if AnyIs(lib, s, es, True) then True else if AnyIs(lib, s, es, Unknown) then Unknown else False
  {
    if es != [] {
      OrDecides(lib, s, es[1..]);
      SomeMore(lib, s, es, True);
      SomeMore(lib, s, es, Unknown);
    }
  }

  // ---------- The loops ----------

  method RunTruth(lib: Library, s: Site, e: Expr) returns (out: Truth)
    ensures out == EvalTruth(lib, s.env, s.idx, s.row, e)
    decreases e
  {
    match e {
      case Const(b) => return TruthOf(b);
      case Pred(p) => return EvalPred(lib, s.env, s.idx, s.row, p);
      case Not(n) =>
        var t := RunTruth(lib, s, n);
        return t.Not();
      case And(es) =>
        AndDecides(lib, s, es);
        out := True;
        for i := 0 to |es|
          invariant !AnyIs(lib, s, es[..i], False)
          invariant out == if AnyIs(lib, s, es[..i], Unknown) then Unknown else True
        {
          assert es[..i + 1] == es[..i] + [es[i]];
          var t := RunTruth(lib, s, es[i]);
          if t == False {
            assert es[i] in es;
            return False;
          }
          if t == Unknown { out := Unknown; }
        }
        assert es[..|es|] == es;
      case Or(es) =>
        if es == [] { return True; }
        OrDecides(lib, s, es);
        out := False;
        for i := 0 to |es|
          invariant !AnyIs(lib, s, es[..i], True)
          invariant out == if AnyIs(lib, s, es[..i], Unknown) then Unknown else False
        {
          assert es[..i + 1] == es[..i] + [es[i]];
          var t := RunTruth(lib, s, es[i]);
          if t == True {
            assert es[i] in es;
            return True;
          }
          if t == Unknown { out := Unknown; }
        }
        assert es[..|es|] == es;
    }
  }

  // ---------- NOT ----------

  predicate IsComparison(op: Op) { op in {Eq, Ne, Lt, Le, Gt, Ge} }

  function Opposite(op: Op): Op
    requires IsComparison(op)
  {
    match op
    case Eq => Ne
    case Ne => Eq
    case Lt => Ge
    case Ge => Lt
    case Gt => Le
    case Le => Gt
  }

  // The condition with its negation moved in to the comparisons.
  function Negated(e: Expr): Expr
    decreases e, 0
  {
    match e
    case Const(b) => Const(!b)
    case Pred(p) =>
      if IsComparison(p.op) then Pred(p.(op := Opposite(p.op)))
      else if p.op == IsNull then Pred(p.(op := IsNotNull))
      else if p.op == IsNotNull then Pred(p.(op := IsNull))
      else Not(e)
    case Not(n) => n
    case And(es) => if es == [] then Const(false) else Or(NegatedAll(es))
    case Or(es) => if es == [] then Const(false) else And(NegatedAll(es))
  }

  function NegatedAll(es: seq<Expr>): (r: seq<Expr>)
    ensures |r| == |es|
    decreases es, 0
  {
    if es == [] then [] else [Negated(es[0])] + NegatedAll(es[1..])
  }

  // NOT moves in through AND, OR and the comparisons without changing UNKNOWN into anything else.
  lemma {:induction false} NegationMovesIn(lib: Library, s: Site, e: Expr)
    ensures EvalTruth(lib, s.env, s.idx, s.row, Negated(e)) == EvalTruth(lib, s.env, s.idx, s.row, Not(e))
    decreases e, 0
  {
    match e
    case And(es) => NegationsMoveIn(lib, s, es);
    case Or(es) => NegationsMoveIn(lib, s, es);
    case Pred(p) => ComparisonFlips(lib, s, p);
    case Not(n) => assert EvalTruth(lib, s.env, s.idx, s.row, e) == EvalTruth(lib, s.env, s.idx, s.row, n).Not();
    case Const(_) =>
  }

  lemma ComparisonFlips(lib: Library, s: Site, p: Predicate)
    ensures EvalTruth(lib, s.env, s.idx, s.row, Negated(Pred(p))) == EvalPred(lib, s.env, s.idx, s.row, p).Not()
  {
    assert p.op != In && p.op != Like && p.op != Exists && p.op != IsNull && p.op != IsNotNull ==> IsComparison(p.op);
  }

  lemma {:induction false} NegationsMoveIn(lib: Library, s: Site, es: seq<Expr>)
    ensures EvalOr(lib, s.env, s.idx, s.row, NegatedAll(es)) == EvalAnd(lib, s.env, s.idx, s.row, es).Not()
    ensures EvalAnd(lib, s.env, s.idx, s.row, NegatedAll(es)) == EvalOr(lib, s.env, s.idx, s.row, es).Not()
    decreases es, 0
  {
    if es != [] {
      NegationMovesIn(lib, s, es[0]);
      NegationsMoveIn(lib, s, es[1..]);
      assert NegatedAll(es)[1..] == NegatedAll(es[1..]);
    }
  }
}
