/** What the REDUCE pass leaves: trees to which none of its rules applies. */
module NormalForm {
  import opened Wrappers
  import opened Runtime
  import opened Expr
  import opened BitFold
  import opened Reduce

  /** No constant decides a condition or an operand, no double negation, no literal array is indexed by a
      constant in range, no bit function is called with constants, no `v := v op e` and no parentheses
      around a simple expression, as far as the mode has the rule. In strict mode the objects of
      messages are left as they are, and parentheses stay. */
  predicate Normal(f: Env, e: Expr)
  {
    match e
    case ERef(t) => Normal(f, t)
    case EIif(c, t, n) => !c.ELogical? && Normal(f, c) && Normal(f, t) && Normal(f, n)
    case EList(es) => (f.harbour ==> !IsParenthesised(es)) && AllNormal(f, es)
    case EArray(es) => AllNormal(f, es)
    case EIndex(a, i) =>
      !(a.EArray? && i.ENumber? && 1 <= i.n <= Len(a.items)) && Normal(f, a) && Normal(f, i)
    case ECall(g, es) => !(f.bits(g).Some? && 2 <= Len(es) <= MAX_ARGS && AllNumbers(es)) && AllNormal(f, es)
    case EField(o, _) => f.harbour ==> Normal(f, o)
    case EMethod(o, _, es) => (f.harbour ==> Normal(f, o)) && AllNormal(f, es)
    case EAliased(a, b) => Normal(f, a) && Normal(f, b)
    case EAssign(l, r) => !(f.harbour && RepeatsTarget(l, r)) && Normal(f, l) && Normal(f, r)
    case EOpAssign(_, l, r) => Normal(f, l) && Normal(f, r)
    case EStep(_, _, l) => Normal(f, l)
    case EAnd(l, r) => !Decided(f, l, r) && Normal(f, l) && Normal(f, r)
    case EOr(l, r) => !Decided(f, l, r) && Normal(f, l) && Normal(f, r)
    case ENot(l) => !l.ELogical? && !(f.extopt && l.ENot?) && Normal(f, l)
    case ENegate(l) => Normal(f, l)
    case EBin(_, l, r) => Normal(f, l) && Normal(f, r)
    case _ => true
  }

  predicate AllNormal(f: Env, es: Exprs)
  {
    es.NoMore? || (Normal(f, es.head) && AllNormal(f, es.tail))
  }

  predicate IsParenthesised(es: Exprs)
  {
    es.More? && es.tail.NoMore? && !IsOperator(es.head)
  }

  predicate RepeatsTarget(l: Expr, r: Expr)
  {
    l.EVar? && r.EBin? && r.op.Arith? && r.l == l
  }

  predicate Decided(f: Env, l: Expr, r: Expr)
  {
    if f.shortcuts then l.ELogical? || r.ELogical? else l.ELogical? && r.ELogical?
  }

  lemma {:induction false} NthIsNormal(f: Env, es: Exprs, n: int)
    requires AllNormal(f, es) && 1 <= n <= Len(es)
    ensures Normal(f, Nth(es, n))
  {
    hide Normal;
    if n > 1 {
      NthIsNormal(f, es.tail, n - 1);
    }
  }

  lemma {:induction false} StripIsNormal(f: Env, e: Expr)
    requires Normal(f, e)
    ensures Normal(f, Strip(e)) && !(Strip(e).EList? && IsParenthesised(Strip(e).items))
  {
    if e.EList? && IsParenthesised(e.items) {
      StripIsNormal(f, e.items.head);
    }
  }

  lemma CallIsNormal(f: Env, g: U16, es: Exprs)
    requires AllNormal(f, es)
    ensures Normal(f, MakeCall(f, g, es))
  {
    hide Folded;
    if f.bits(g).Some? && 2 <= Len(es) <= MAX_ARGS {
      FoldsExactly(f.bits(g).value, es);
    }
  }

  lemma AndIsNormal(f: Env, l: Expr, r: Expr)
    requires Normal(f, l) && Normal(f, r)
    ensures Normal(f, MakeAnd(f, l, r))
  {
  }

  lemma OrIsNormal(f: Env, l: Expr, r: Expr)
    requires Normal(f, l) && Normal(f, r)
    ensures Normal(f, MakeOr(f, l, r))
  {
  }

  lemma NotIsNormal(f: Env, l: Expr)
    requires Normal(f, l)
    ensures Normal(f, MakeNot(f, l))
  {
  }

  lemma ChoiceIsNormal(f: Env, c: Expr, t: Expr, n: Expr)
    requires Normal(f, c) && Normal(f, t) && Normal(f, n)
    ensures Normal(f, RefOf(t)) && Normal(f, Pick(c, t, n))
  {
  }

  lemma AssignIsNormal(f: Env, l: Expr, r: Expr)
    requires Normal(f, l) && Normal(f, r)
    ensures Normal(f, MakeAssign(f, l, r))
  {
  }

  lemma AtIsNormal(f: Env, a: Expr, i: Expr)
    requires Normal(f, a) && Normal(f, i)
    ensures Normal(f, At(a, i))
  {
    if Picks(a, i) {
      NthIsNormal(f, a.items, i.n);
    }
  }

  /** Whatever is reduced, no rule is left to apply. */
  lemma {:induction false} ReducedIsNormal(f: Env, e: Expr)
    ensures Normal(f, Reduced(f, e))
    decreases e, 2
  {
    if e.EAnd? || e.EOr? || e.ENot? || e.ENegate? || e.EBin? {
      OperatorIsNormal(f, e);
    } else if e.EAssign? || e.EOpAssign? || e.EStep? {
      AssignmentIsNormal(f, e);
    } else if e.EList? || e.EArray? || e.ECall? || e.EMethod? {
      ListIsNormal(f, e);
    } else {
      OtherIsNormal(f, e);
    }
  }

  lemma {:induction false} OperatorIsNormal(f: Env, e: Expr)
    requires e.EAnd? || e.EOr? || e.ENot? || e.ENegate? || e.EBin?
    ensures Normal(f, Reduced(f, e))
    decreases e, 1
  {
    hide MakeNot, MakeAnd, MakeOr;
    var l := if e.ENot? || e.ENegate? then e.e else e.l;
    var r := if e.ENot? || e.ENegate? then e.e else e.r;
    ReducedIsNormal(f, l);
    ReducedIsNormal(f, r);
    AndIsNormal(f, Reduced(f, l), Reduced(f, r));
    OrIsNormal(f, Reduced(f, l), Reduced(f, r));
    NotIsNormal(f, Reduced(f, l));
  }

  lemma {:induction false} AssignmentIsNormal(f: Env, e: Expr)
    requires e.EAssign? || e.EOpAssign? || e.EStep?
    ensures Normal(f, Reduced(f, e))
    decreases e, 1
  {
    hide MakeAssign, Left;
    TargetIsNormal(f, e, e.lhs);
    if !e.EStep? {
      ReducedIsNormal(f, e.rhs);
      AssignIsNormal(f, Left(f, Reduced(f, e.lhs)), Reduced(f, e.rhs));
    }
  }

  lemma {:induction false} ListIsNormal(f: Env, e: Expr)
    requires e.EList? || e.EArray? || e.ECall? || e.EMethod?
    ensures Normal(f, Reduced(f, e))
    decreases e, 1
  {
    hide MakeCall, Strip;
    var es := if e.EList? || e.EArray? then e.items else e.args;
    AllReducedAreNormal(f, es);
    if e.EList? {
      ParenthesesGo(f, ReducedAll(f, es));
    } else if e.ECall? {
      CallIsNormal(f, e.f, ReducedAll(f, es));
    } else if e.EMethod? {
      ReducedIsNormal(f, e.obj);
    }
  }

  lemma {:induction false} OtherIsNormal(f: Env, e: Expr)
    requires !e.EList? && !e.EArray? && !e.ECall? && !e.EMethod? && !e.EAssign? && !e.EOpAssign? && !e.EStep?
    requires !e.EAnd? && !e.EOr? && !e.ENot? && !e.ENegate? && !e.EBin?
    ensures Normal(f, Reduced(f, e))
    decreases e, 1
  {
    hide RefOf, Pick, At;
    match e
    case ERef(t) =>
      ReducedIsNormal(f, t);
      ChoiceIsNormal(f, ENil, Reduced(f, t), ENil);
    case EIif(c, t, n) =>
      ReducedIsNormal(f, c);
      ReducedIsNormal(f, t);
      ReducedIsNormal(f, n);
      ChoiceIsNormal(f, Reduced(f, c), Reduced(f, t), Reduced(f, n));
    case EIndex(a, i) =>
      ReducedIsNormal(f, a);
      ReducedIsNormal(f, i);
      AtIsNormal(f, if a.EVar? then ArrayVar(a) else Reduced(f, a), Reduced(f, i));
    case EField(o, _) => ReducedIsNormal(f, o);
    case EAliased(a, b) =>
      ReducedIsNormal(f, a);
      ReducedIsNormal(f, b);
    case _ =>
  }

  lemma {:induction false} TargetIsNormal(f: Env, e: Expr, l: Expr)
    requires l < e
    ensures Normal(f, Left(f, Reduced(f, l)))
    decreases e, 0
  {
    hide Normal, Strip;
    ReducedIsNormal(f, l);
    StripIsNormal(f, Reduced(f, l));
  }

  lemma ParenthesesGo(f: Env, es: Exprs)
    requires AllNormal(f, es)
    ensures Normal(f, if f.harbour then Strip(EList(es)) else EList(es))
  {
    if f.harbour && IsParenthesised(es) {
      StripIsNormal(f, es.head);
    }
  }

  lemma {:induction false} AllReducedAreNormal(f: Env, es: Exprs)
    ensures AllNormal(f, ReducedAll(f, es))
    decreases es, 0
  {
    hide Normal, Reduced;
    if es.More? {
      ReducedIsNormal(f, es.head);
      AllReducedAreNormal(f, es.tail);
    }
  }

  // ----- and such trees stay as they are -----

  /** No undeclared array names, and what is assigned or referenced is a place. */
  predicate Settled(f: Env, e: Expr)
    decreases e, 0
  {
    match e
    case ERef(t) => !t.EIif? && IsTarget(f, t) && Settled(f, t)
    case EIif(c, t, n) => Settled(f, c) && Settled(f, t) && Settled(f, n)
    case EList(es) => AllSettled(f, es)
    case EArray(es) => AllSettled(f, es)
    case EIndex(a, i) => !(a.EVar? && a.x.Undeclared?) && Settled(f, a) && Settled(f, i)
    case ECall(_, es) => AllSettled(f, es)
    case EField(o, _) => f.harbour ==> Settled(f, o)
    case EMethod(o, _, es) => (f.harbour ==> Settled(f, o)) && AllSettled(f, es)
    case EAliased(a, b) => Settled(f, a) && Settled(f, b)
    case EAssign(l, r) => IsTarget(f, l) && Settled(f, l) && Settled(f, r)
    case EOpAssign(_, l, r) => IsTarget(f, l) && Settled(f, l) && Settled(f, r)
    case EStep(_, _, l) => IsTarget(f, l) && Settled(f, l)
    case EAnd(l, r) => Settled(f, l) && Settled(f, r)
    case EOr(l, r) => Settled(f, l) && Settled(f, r)
    case ENot(l) => Settled(f, l)
    case ENegate(l) => Settled(f, l)
    case EBin(_, l, r) => Settled(f, l) && Settled(f, r)
    case _ => true
  }

  predicate AllSettled(f: Env, es: Exprs)
    decreases es, 0
  {
    es.NoMore? || (Settled(f, es.head) && AllSettled(f, es.tail))
  }

  predicate IsTarget(f: Env, l: Expr)
  {
    match l
    case EVar(_) => true
    case EIndex(a, _) => ByRef(f, a) ==> IsTarget(f, a)
    case EField(_, _) => true
    case EMethod(_, _, _) => true
    case EIif(_, y, n) => IsTarget(f, y) && IsTarget(f, n)
    case _ => false
  }

  /** A tree to which no rule applies is not changed, and meets every condition under which the pass is
      right. */
  lemma {:induction false} SettledStays(f: Env, t: Trust, e: Expr)
    requires Normal(f, e) && Settled(f, e)
    ensures Reduced(f, e) == e && Safe(f, t, e)
    ensures IsTarget(f, e) ==> SafeLeft(f, t, e)
    decreases e, 1
  {
    if e.EAnd? || e.EOr? || e.ENot? || e.ENegate? || e.EBin? {
      OperatorStays(f, t, e);
    } else if e.EAssign? || e.EOpAssign? || e.EStep? {
      AssignmentStays(f, t, e);
    } else if e.EList? || e.EArray? || e.ECall? || e.EMethod? {
      ListStays(f, t, e);
    } else {
      OtherStays(f, t, e);
    }
  }

  lemma {:induction false} OperatorStays(f: Env, t: Trust, e: Expr)
    requires Normal(f, e) && Settled(f, e) && (e.EAnd? || e.EOr? || e.ENot? || e.ENegate? || e.EBin?)
    ensures Reduced(f, e) == e && Safe(f, t, e)
    decreases e, 0
  {
    if e.ENot? || e.ENegate? {
      SettledStays(f, t, e.e);
    } else {
      SettledStays(f, t, e.l);
      SettledStays(f, t, e.r);
    }
  }

  lemma {:induction false} AssignmentStays(f: Env, t: Trust, e: Expr)
    requires Normal(f, e) && Settled(f, e) && (e.EAssign? || e.EOpAssign? || e.EStep?)
    ensures Reduced(f, e) == e && Safe(f, t, e)
    decreases e, 0
  {
    SettledStays(f, t, e.lhs);
    if !e.EStep? {
      SettledStays(f, t, e.rhs);
    }
  }

  lemma {:induction false} ListStays(f: Env, t: Trust, e: Expr)
    requires Normal(f, e) && Settled(f, e) && (e.EList? || e.EArray? || e.ECall? || e.EMethod?)
    ensures Reduced(f, e) == e && Safe(f, t, e)
    ensures IsTarget(f, e) ==> SafeLeft(f, t, e)
    decreases e, 0
  {
    hide Folded;
    var es := if e.EList? || e.EArray? then e.items else e.args;
    AllSettledStay(f, t, es);
    if e.EMethod? && f.harbour {
      SettledStays(f, t, e.obj);
    }
    if e.ECall? && f.bits(e.f).Some? && Folded(f.bits(e.f).value, es).Some? {
      FoldsOnly(f.bits(e.f).value, es);
    }
  }

  lemma {:induction false} AllSettledStay(f: Env, t: Trust, es: Exprs)
    requires AllNormal(f, es) && AllSettled(f, es)
    ensures ReducedAll(f, es) == es && AllSafe(f, t, es)
    decreases es, 0
  {
    hide Normal, Settled, Reduced, Safe;
    if es.More? {
      SettledStays(f, t, es.head);
      AllSettledStay(f, t, es.tail);
    }
  }

  lemma {:induction false} OtherStays(f: Env, t: Trust, e: Expr)
    requires !e.EList? && !e.EArray? && !e.ECall? && !e.EMethod? && !e.EAssign? && !e.EOpAssign? && !e.EStep?
    requires !e.EAnd? && !e.EOr? && !e.ENot? && !e.ENegate? && !e.EBin?
    requires Normal(f, e) && Settled(f, e)
    ensures Reduced(f, e) == e && Safe(f, t, e)
    ensures IsTarget(f, e) ==> SafeLeft(f, t, e)
    decreases e, 0
  {
    match e
    case ERef(l) => SettledStays(f, t, l);
    case EIif(c, y, n) =>
      SettledStays(f, t, c);
      SettledStays(f, t, y);
      SettledStays(f, t, n);
    case EIndex(a, i) =>
      SettledStays(f, t, a);
      SettledStays(f, t, i);
    case EField(o, _) =>
      if f.harbour {
        SettledStays(f, t, o);
      }
    case EAliased(a, b) =>
      SettledStays(f, t, a);
      SettledStays(f, t, b);
    case _ =>
  }

  // ----- the rules one by one -----

  /** The trees the rules make. */
  lemma NegationsFire(f: Env, b: bool, e: Expr)
    ensures Reduced(f, ENot(ELogical(b))) == ELogical(!b)
    ensures !Reduced(f, e).ELogical? && !Reduced(f, e).ENot? ==>
      Reduced(f, ENot(ENot(e))) == if f.extopt then Reduced(f, e) else ENot(ENot(Reduced(f, e)))
  {
    assert Reduced(f, ENot(e)) == MakeNot(f, Reduced(f, e));
  }

  /** Outside strict mode parentheses go, but not around an operator. */
  lemma ParenthesesFire(f: Env, e: Expr)
    ensures var d := Reduced(f, e);
      Reduced(f, EList(More(e, NoMore))) ==
        if !f.harbour || d.EStep? || d.EAssign? || d.EOpAssign? || d.EAnd? || d.EOr? || d.ENot? || d.ENegate? || d.EBin?
        then EList(More(d, NoMore)) else d
  {
    ReducedIsNormal(f, e);
    var es := More(e, NoMore);
    assert ReducedAll(f, NoMore) == NoMore;
    assert ReducedAll(f, es) == More(Reduced(f, e), NoMore);
    OnlyOnce(f, Reduced(f, e));
  }

  lemma OnlyOnce(f: Env, d: Expr)
    requires f.harbour ==> Normal(f, d)
    ensures f.harbour ==> Strip(d) == d
  {
  }

  lemma AndFires(f: Env, b: bool, e: Expr)
    requires f.shortcuts
    ensures Reduced(f, EAnd(ELogical(b), e)) == if b then Reduced(f, e) else ELogical(false)
    ensures Reduced(f, EAnd(e, ELogical(b))) == if b then Reduced(f, e) else ELogical(false)
  {
    ReducedLogic(f, ELogical(b), e);
    ReducedLogic(f, e, ELogical(b));
  }

  lemma OrFires(f: Env, b: bool, e: Expr)
    requires f.shortcuts
    ensures Reduced(f, EOr(ELogical(b), e)) == if b then ELogical(true) else Reduced(f, e)
    ensures Reduced(f, EOr(e, ELogical(b))) == if b then ELogical(true) else Reduced(f, e)
  {
    ReducedLogic(f, ELogical(b), e);
    ReducedLogic(f, e, ELogical(b));
  }

  lemma ReducedLogic(f: Env, l: Expr, r: Expr)
    ensures Reduced(f, EAnd(l, r)) == MakeAnd(f, Reduced(f, l), Reduced(f, r))
    ensures Reduced(f, EOr(l, r)) == MakeOr(f, Reduced(f, l), Reduced(f, r))
    ensures l.ELogical? ==> Reduced(f, l) == l
    ensures r.ELogical? ==> Reduced(f, r) == r
  {
    hide MakeAnd, MakeOr;
  }

  lemma ChoicesFire(f: Env, b: bool, c: Expr, t: Expr, n: Expr)
    ensures Reduced(f, EIif(ELogical(b), t, n)) == Reduced(f, if b then t else n)
    ensures !Reduced(f, c).ELogical? ==>
      Reduced(f, ERef(EIif(c, t, n))) == EIif(Reduced(f, c), ERef(Reduced(f, t)), ERef(Reduced(f, n)))
  {
    assert Reduced(f, EIif(c, t, n)) == Pick(Reduced(f, c), Reduced(f, t), Reduced(f, n));
    assert Reduced(f, EIif(ELogical(b), t, n)) == Pick(Reduced(f, ELogical(b)), Reduced(f, t), Reduced(f, n));
  }

  lemma AssignmentsFire(f: Env, x: Var, op: ArithOp, e: Expr)
    ensures Reduced(f, EAssign(EVar(x), EBin(Arith(op), EVar(x), e))) ==
      if f.harbour then EOpAssign(op, EVar(x), Reduced(f, e))
      else EAssign(EVar(x), EBin(Arith(op), EVar(x), Reduced(f, e)))
  {
    var r := EBin(Arith(op), EVar(x), e);
    assert Reduced(f, r) == EBin(Arith(op), EVar(x), Reduced(f, e));
    assert Reduced(f, EAssign(EVar(x), r)) == MakeAssign(f, Left(f, EVar(x)), Reduced(f, r));
  }

  /** An undeclared array name becomes a memvar, but not in parentheses. */
  lemma UndeclaredArrayFires(f: Env, s: U16, i: Expr)
    ensures Reduced(f, EIndex(EVar(Undeclared(s)), i)) == EIndex(EVar(Memvar(s)), Reduced(f, i))
    ensures f.harbour ==>
      Reduced(f, EIndex(EList(More(EVar(Undeclared(s)), NoMore)), i)) == EIndex(EVar(Undeclared(s)), Reduced(f, i))
  {
    ParenthesesFire(f, EVar(Undeclared(s)));
    assert Reduced(f, EVar(Undeclared(s))) == EVar(Undeclared(s));
  }

  lemma {:induction false} ElementFires(f: Env, es: Exprs, n: S64)
    requires 1 <= n <= Len(es)
    ensures Reduced(f, EIndex(EArray(es), ENumber(n))) == Reduced(f, Nth(es, n))
  {
    NthReduced(f, es, n);
  }

  lemma {:induction false} NthReduced(f: Env, es: Exprs, n: int)
    requires 1 <= n <= Len(es)
    ensures Len(ReducedAll(f, es)) == Len(es) && Nth(ReducedAll(f, es), n) == Reduced(f, Nth(es, n))
  {
    hide Reduced;
    LengthKept(f, es);
    if n > 1 {
      NthReduced(f, es.tail, n - 1);
    }
  }

  lemma {:induction false} LengthKept(f: Env, es: Exprs)
    ensures Len(ReducedAll(f, es)) == Len(es)
  {
    hide Reduced;
    if es.More? {
      LengthKept(f, es.tail);
    }
  }
}
