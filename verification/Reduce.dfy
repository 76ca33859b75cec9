/** The bottom-up REDUCE pass (include/hbexprb.c, src/common/expropt2.c) without the folding of
    arithmetic constants, and the conditions under which it preserves meaning. */
module Reduce {
  import opened Wrappers
  import opened Runtime
  import opened Expr
  import opened Forms
  import opened Effects
  import opened Encodings
  import opened Likeness
  import opened BitFold
  import M = Mirror
  import Correct

  // ----- the rewriting rules, on operands already reduced -----

  /** `@iif( c, a, b )` becomes `iif( c, @a, @b )`. */
  function RefOf(t: Expr): Expr
  {
    if t.EIif? then EIif(t.cond, ERef(t.yes), ERef(t.no)) else ERef(t)
  }

  /** A constant condition picks its branch. */
  function Pick(c: Expr, t: Expr, n: Expr): Expr
  {
    if c.ELogical? then (if c.b then t else n) else EIif(c, t, n)
  }

  /** Parentheses are removed around anything but an operator. */
  predicate IsOperator(e: Expr)
  {
    || e.EStep? || e.EAssign? || e.EOpAssign? || e.EAnd? || e.EOr? || e.ENot? || e.ENegate? || e.EBin?
  }

  function Strip(e: Expr): Expr
  {
    if e.EList? && e.items.More? && e.items.tail.NoMore? && !IsOperator(e.items.head) then Strip(e.items.head) else e
  }

  function Nth(es: Exprs, n: int): Expr
    requires 1 <= n <= Len(es)
  {
    if n == 1 then es.head else Nth(es.tail, n - 1)
  }

  /** An undeclared array variable is taken for a memvar. */
  function ArrayVar(a: Expr): Expr
  {
    if a.EVar? && a.x.Undeclared? then EVar(Memvar(a.x.usym)) else a
  }

  predicate Picks(a: Expr, i: Expr)
  {
    a.EArray? && i.ENumber? && 1 <= i.n <= Len(a.items)
  }

  /** A literal array with a constant index in range is replaced by that element. */
  function At(a: Expr, i: Expr): Expr
  {
    if Picks(a, i) then Nth(a.items, i.n) else EIndex(a, i)
  }

  /** `v := v op e` becomes `v op= e`. */
  function MakeAssign(f: Env, l: Expr, r: Expr): Expr
  {
    if f.harbour && l.EVar? && r.EBin? && r.op.Arith? && r.l == l then EOpAssign(r.op.a, l, r.r) else EAssign(l, r)
  }

  function MakeAnd(f: Env, l: Expr, r: Expr): Expr
  {
    if l.ELogical? && r.ELogical? then ELogical(l.b && r.b)
    else if l.ELogical? && f.shortcuts then (if l.b then r else ELogical(false))
    else if r.ELogical? && f.shortcuts then (if r.b then l else ELogical(false))
    else EAnd(l, r)
  }

  function MakeOr(f: Env, l: Expr, r: Expr): Expr
  {
    if l.ELogical? && r.ELogical? then ELogical(l.b || r.b)
    else if l.ELogical? && f.shortcuts then (if l.b then ELogical(true) else r)
    else if r.ELogical? && f.shortcuts then (if r.b then ELogical(true) else l)
    else EOr(l, r)
  }

  function MakeNot(f: Env, e: Expr): Expr
  {
    if e.ELogical? then ELogical(!e.b) else if e.ENot? && f.extopt then e.e else ENot(e)
  }

  /** A call of a bit function with constant arguments becomes a constant. */
  function MakeCall(f: Env, g: U16, es: Exprs): Expr
  {
    if f.bits(g).Some? && Folded(f.bits(g).value, es).Some? then ENumber(Folded(f.bits(g).value, es).value)
    else ECall(g, es)
  }

  function Left(f: Env, l: Expr): Expr
  {
    if f.harbour then l else Strip(l)
  }

  // ----- the pass -----

  function Reduced(f: Env, e: Expr): Expr
  {
    match e
    case ERef(t) => RefOf(Reduced(f, t))
    case EIif(c, t, n) => Pick(Reduced(f, c), Reduced(f, t), Reduced(f, n))
    case EList(es) => if f.harbour then Strip(EList(ReducedAll(f, es))) else EList(ReducedAll(f, es))
    case EArray(es) => EArray(ReducedAll(f, es))
    case EIndex(a, i) => At(if a.EVar? then ArrayVar(a) else Reduced(f, a), Reduced(f, i))
    case ECall(g, es) => MakeCall(f, g, ReducedAll(f, es))
    case EField(o, msg) => EField(if f.harbour then Reduced(f, o) else o, msg)
    case EMethod(o, msg, es) => EMethod(if f.harbour then Reduced(f, o) else o, msg, ReducedAll(f, es))
    case EAliased(a, b) => EAliased(Reduced(f, a), Reduced(f, b))
    case EAssign(l, r) => MakeAssign(f, Left(f, Reduced(f, l)), Reduced(f, r))
    case EOpAssign(op, l, r) => EOpAssign(op, Left(f, Reduced(f, l)), Reduced(f, r))
    case EStep(pre, inc, l) => EStep(pre, inc, Left(f, Reduced(f, l)))
    case EAnd(l, r) => MakeAnd(f, Reduced(f, l), Reduced(f, r))
    case EOr(l, r) => MakeOr(f, Reduced(f, l), Reduced(f, r))
    case ENot(l) => MakeNot(f, Reduced(f, l))
    case ENegate(l) => ENegate(Reduced(f, l))
    case EBin(op, l, r) => EBin(op, Reduced(f, l), Reduced(f, r))
    case _ => e
  }

  function ReducedAll(f: Env, es: Exprs): Exprs
  {
    match es
    case NoMore => NoMore
    case More(e, rest) => More(Reduced(f, e), ReducedAll(f, rest))
  }

  // ----- replacing one expression by another -----

  /** Wherever `e` runs without error, `d` gives the same value, effect and argument. */
  predicate Agrees(m: Sem, f: Env, e: Expr, d: Expr, w: World)
  {
    && (Eval(m, f, e, w).Some? ==> Eval(m, f, d, w) == Eval(m, f, e, w))
    && (Effect(m, f, e, w).Some? ==> Effect(m, f, d, w) == Effect(m, f, e, w))
    && (EvalArg(m, f, e, w).Some? ==> EvalArg(m, f, d, w) == EvalArg(m, f, e, w))
  }

  ghost predicate Refines(m: Sem, f: Env, e: Expr, d: Expr)
  {
    forall w :: Agrees(m, f, e, d, w)
  }

  lemma Use(m: Sem, f: Env, e: Expr, d: Expr, w: World)
    requires Refines(m, f, e, d)
    ensures Agrees(m, f, e, d, w)
  {
  }

  lemma RefinesItself(m: Sem, f: Env, e: Expr)
    ensures Refines(m, f, e, e)
  {
  }

  lemma RefinesThen(m: Sem, f: Env, a: Expr, b: Expr, c: Expr)
    requires Refines(m, f, a, b) && Refines(m, f, b, c)
    ensures Refines(m, f, a, c)
  {
    hide Eval, Effect, EvalArg, Refines;
    forall w
      ensures Agrees(m, f, a, c, w)
    {
      Use(m, f, a, b, w);
      Use(m, f, b, c, w);
    }
    Conclude(m, f, a, c);
  }

  lemma Conclude(m: Sem, f: Env, e: Expr, d: Expr)
    requires forall w :: Agrees(m, f, e, d, w)
    ensures Refines(m, f, e, d)
  {
  }

  // ----- the rules are sound -----

  /** The logical operators compute what their names say, and Not rejects anything but a logical. */
  ghost predicate LogicLaws(m: Sem)
  {
    && (forall b :: m.unary(Not, Logical(b)) == Some(Logical(!b)))
    && (forall v :: m.unary(Not, v).Some? ==> v.Logical?)
    && (forall a, b :: m.binary(Rel(LogicalAnd), Logical(a), Logical(b)) == Some(Logical(a && b)))
    && (forall a, b :: m.binary(Rel(LogicalOr), Logical(a), Logical(b)) == Some(Logical(a || b)))
  }

  lemma PickOk(m: Sem, f: Env, c: Expr, t: Expr, n: Expr)
    ensures Refines(m, f, EIif(c, t, n), Pick(c, t, n))
  {
    if c.ELogical? {
      forall w
        ensures Agrees(m, f, EIif(c, t, n), Pick(c, t, n), w)
      {
        assert Eval(m, f, c, w) == Some(Result(Logical(c.b), w));
      }
    }
  }

  lemma {:induction false} StripOk(m: Sem, f: Env, e: Expr)
    ensures Refines(m, f, e, Strip(e))
  {
    hide Refines, Agrees;
    if Strip(e) == e {
      RefinesItself(m, f, e);
    } else {
      forall w
        ensures Agrees(m, f, e, e.items.head, w)
      {
        SingleAgrees(m, f, e, w);
      }
      Conclude(m, f, e, e.items.head);
      StripOk(m, f, e.items.head);
      RefinesThen(m, f, e, e.items.head, Strip(e));
    }
  }

  lemma SingleAgrees(m: Sem, f: Env, e: Expr, w: World)
    requires e.EList? && e.items.More? && e.items.tail.NoMore?
    ensures Agrees(m, f, e, e.items.head, w)
  {
    assert EvalLast(m, f, e.items, w) == Eval(m, f, e.items.head, w);
    assert EffectAll(m, f, e.items, w) == Effect(m, f, e.items.head, w) by {
      assert forall w1 :: EffectAll(m, f, NoMore, w1) == Some(w1);
    }
    if Eval(m, f, e, w).Some? {
      ArgOfValue(m, f, e.items.head, w);
    }
  }

  lemma NotOk(m: Sem, f: Env, e: Expr)
    requires LogicLaws(m) && (e.ENot? && f.extopt ==> f.harbour || Steady(f, e.e))
    ensures Refines(m, f, ENot(e), MakeNot(f, e))
  {
    hide Refines;
    if MakeNot(f, e) == ENot(e) {
      RefinesItself(m, f, ENot(e));
    } else {
      forall w
        ensures Agrees(m, f, ENot(e), MakeNot(f, e), w)
      {
        NotAgrees(m, f, e, w);
      }
      Conclude(m, f, ENot(e), MakeNot(f, e));
    }
  }

  lemma NotAgrees(m: Sem, f: Env, e: Expr, w: World)
    requires LogicLaws(m) && (e.ENot? && f.extopt ==> f.harbour || Steady(f, e.e))
    ensures Agrees(m, f, ENot(e), MakeNot(f, e), w)
  {
    hide Steady;
    if e.ELogical? {
      LiteralValue(m, f, e, w);
    } else if e.ENot? && f.extopt {
      NotNot(m, f, e.e, w);
      var r := Eval(m, f, e.e, w);
      if r.Some? {
        ArgOfValue(m, f, e.e, w);
        if !f.harbour {
          EffectIsEval(m, f, e.e, w);
        }
      }
    }
  }

  lemma NotNot(m: Sem, f: Env, e: Expr, w: World)
    requires LogicLaws(m)
    ensures var d := Eval(m, f, ENot(ENot(e)), w); d.Some? ==> Eval(m, f, e, w) == d
    ensures f.harbour ==> Effect(m, f, ENot(ENot(e)), w) == Effect(m, f, e, w)
    ensures !f.harbour ==> Effect(m, f, ENot(ENot(e)), w) == Discard(Eval(m, f, ENot(ENot(e)), w))
  {
    hide Eval, Effect;
    OperatorForm(m, f, ENot(e), w);
    OperatorForm(m, f, ENot(ENot(e)), w);
  }

  /** What may be lost when the second operand of AND or OR is a constant: nothing if it only
      repeats the first operand, all of the first operand if it decides alone. */
  predicate DropOk(f: Env, l: Expr, r: Expr, keeps: bool)
  {
    f.shortcuts && r.ELogical? && !l.ELogical? ==> if r.b == keeps then Steady(f, l) else IsPure(l)
  }

  lemma AndOk(m: Sem, f: Env, l: Expr, r: Expr)
    requires LogicLaws(m) && DropOk(f, l, r, true)
    ensures Refines(m, f, EAnd(l, r), MakeAnd(f, l, r))
  {
    hide Refines, LogicLaws, MakeAnd;
    forall w
      ensures Agrees(m, f, EAnd(l, r), MakeAnd(f, l, r), w)
    {
      AndAgrees(m, f, l, r, w);
    }
    Conclude(m, f, EAnd(l, r), MakeAnd(f, l, r));
  }

  lemma AndAgrees(m: Sem, f: Env, l: Expr, r: Expr, w: World)
    requires LogicLaws(m) && DropOk(f, l, r, true)
    ensures Agrees(m, f, EAnd(l, r), MakeAnd(f, l, r), w)
  {
    hide Steady, IsPure, Eval, Effect, EvalArg;
    ShortForm(m, f, EAnd(l, r), w);
    ArgForm(m, f, EAnd(l, r), w);
    LiteralValue(m, f, MakeAnd(f, l, r), w);
    if l.ELogical? {
      LiteralValue(m, f, l, w);
      LiteralValue(m, f, r, w);
      if Eval(m, f, r, w).Some? {
        ArgOfValue(m, f, r, w);
      }
    } else if r.ELogical? && f.shortcuts {
      AndConstant(m, f, l, r, w);
    }
  }

  lemma AndConstant(m: Sem, f: Env, l: Expr, r: Expr, w: World)
    requires f.shortcuts && r.ELogical? && DropOk(f, l, r, true) && !l.ELogical?
    ensures Agrees(m, f, EAnd(l, r), MakeAnd(f, l, r), w)
  {
    hide Steady, IsPure, Eval, Effect, EvalArg;
    ShortForm(m, f, EAnd(l, r), w);
    ArgForm(m, f, EAnd(l, r), w);
    LiteralValue(m, f, MakeAnd(f, l, r), w);
    var rl := Eval(m, f, l, w);
    if rl.Some? {
      LiteralValue(m, f, r, rl.value.w);
      ArgOfValue(m, f, l, w);
      if r.b == true { EffectIsEval(m, f, l, w); } else { PureKeepsWorld(m, f, l, w); }
    }
  }

  lemma OrOk(m: Sem, f: Env, l: Expr, r: Expr)
    requires LogicLaws(m) && DropOk(f, l, r, false)
    ensures Refines(m, f, EOr(l, r), MakeOr(f, l, r))
  {
    hide Refines, LogicLaws, MakeOr;
    forall w
      ensures Agrees(m, f, EOr(l, r), MakeOr(f, l, r), w)
    {
      OrAgrees(m, f, l, r, w);
    }
    Conclude(m, f, EOr(l, r), MakeOr(f, l, r));
  }

  lemma OrAgrees(m: Sem, f: Env, l: Expr, r: Expr, w: World)
    requires LogicLaws(m) && DropOk(f, l, r, false)
    ensures Agrees(m, f, EOr(l, r), MakeOr(f, l, r), w)
  {
    hide Steady, IsPure, Eval, Effect, EvalArg;
    ShortForm(m, f, EOr(l, r), w);
    ArgForm(m, f, EOr(l, r), w);
    LiteralValue(m, f, MakeOr(f, l, r), w);
    if l.ELogical? {
      LiteralValue(m, f, l, w);
      LiteralValue(m, f, r, w);
      if Eval(m, f, r, w).Some? {
        ArgOfValue(m, f, r, w);
      }
    } else if r.ELogical? && f.shortcuts {
      OrConstant(m, f, l, r, w);
    }
  }

  lemma OrConstant(m: Sem, f: Env, l: Expr, r: Expr, w: World)
    requires f.shortcuts && r.ELogical? && DropOk(f, l, r, false) && !l.ELogical?
    ensures Agrees(m, f, EOr(l, r), MakeOr(f, l, r), w)
  {
    hide Steady, IsPure, Eval, Effect, EvalArg;
    ShortForm(m, f, EOr(l, r), w);
    ArgForm(m, f, EOr(l, r), w);
    LiteralValue(m, f, MakeOr(f, l, r), w);
    var rl := Eval(m, f, l, w);
    if rl.Some? {
      LiteralValue(m, f, r, rl.value.w);
      ArgOfValue(m, f, l, w);
      if r.b == false { EffectIsEval(m, f, l, w); } else { PureKeepsWorld(m, f, l, w); }
    }
  }

  lemma RefOfOk(m: Sem, f: Env, t: Expr)
    ensures Refines(m, f, ERef(t), RefOf(t))
  {
    forall w
      ensures Agrees(m, f, ERef(t), RefOf(t), w)
    {
      if t.EIif? {
        var r := Eval(m, f, t.cond, w);
        if r.Some? {
          RefArg(m, f, t.yes, r.value.w);
          RefArg(m, f, t.no, r.value.w);
        }
      }
    }
  }

  /** What is taken for granted: `garbage`, that nothing depends on the numbers of arrays, so that
      arrays may be saved; `spared`, that calls and messages do not write locals they have no
      reference to. */
  datatype Trust = Trust(garbage: bool, spared: bool)

  ghost predicate SparesLocals(m: Sem)
  {
    forall p :: Spared(m, LocalCell(p))
  }

  /** The variable a rewritten assignment has to keep. */
  function Kept(t: Trust, x: Var): Watched
    requires HasCell(x)
  {
    Watched(CellOf(x), t.spared && CellOf(x).LocalCell?)
  }

  /** The side condition of `v := v op e`. */
  predicate AssignOk(f: Env, t: Trust, l: Expr, r: Expr)
  {
    MakeAssign(f, l, r).EOpAssign? && Direct(f, l.x) ==> Leaves(Kept(t, l.x), r.r)
  }

  lemma MakeAssignOk(m: Sem, f: Env, t: Trust, l: Expr, r: Expr)
    requires AssignOk(f, t, l, r) && (t.spared ==> SparesLocals(m))
    ensures Refines(m, f, EAssign(l, r), MakeAssign(f, l, r))
  {
    hide Refines, Eval, Effect, Leaves, Spared;
    var d := MakeAssign(f, l, r);
    forall w
      ensures Agrees(m, f, EAssign(l, r), d, w)
    {
      if d.EOpAssign? {
        if Direct(f, l.x) {
          RewriteKeepsMeaning(m, f, d.aop, l.x, d.rhs, Kept(t, l.x).calls, w);
        } else {
          OtherVariable(m, f, d.aop, l.x, d.rhs, w);
        }
      }
    }
    Conclude(m, f, EAssign(l, r), d);
  }

  lemma MakeCallOk(m: Sem, f: Env, g: U16, es: Exprs)
    requires BitLaws(m, f)
    ensures Refines(m, f, ECall(g, es), MakeCall(f, g, es))
  {
    hide Refines, Eval, Effect, EvalArg, BitLaws, Folded;
    var d := MakeCall(f, g, es);
    forall w
      ensures Agrees(m, f, ECall(g, es), d, w)
    {
      if d.ENumber? {
        FoldIsCall(m, f, g, es, w);
      }
    }
    Conclude(m, f, ECall(g, es), d);
  }

  /** A field or an undeclared name is read before `e` either way. */
  lemma OtherVariable(m: Sem, f: Env, op: ArithOp, x: Var, e: Expr, w: World)
    requires f.harbour && !Direct(f, x)
    ensures Eval(m, f, Compound(op, x, e), w) == Eval(m, f, Assignment(op, x, e), w)
    ensures Effect(m, f, Compound(op, x, e), w) == Effect(m, f, Assignment(op, x, e), w)
  {
    hide Eval, Effect, ReadVar, WriteVar;
    AssignmentValue(m, f, op, x, e, w);
    AssignmentEffect(m, f, op, x, e, w);
    Correct.UpdateIsEval(m, f, Compound(op, x, e), w);
  }

  // ----- an element of a literal array -----

  predicate AllPure(es: Exprs)
  {
    es.NoMore? || (IsPure(es.head) && AllPure(es.tail))
  }

  /** All elements but the chosen one can change nothing. */
  predicate PureBut(es: Exprs, n: int)
    requires 1 <= n <= Len(es)
  {
    if n == 1 then AllPure(es.tail) else IsPure(es.head) && PureBut(es.tail, n - 1)
  }

  lemma {:induction false} PlainAt(items: seq<Item>, k: nat)
    requires PlainValues(items).Some? && k < |items|
    ensures |PlainValues(items).value| == |items| && items[k] == Val(PlainValues(items).value[k])
  {
    if k > 0 {
      PlainAt(items[1..], k - 1);
    } else if |items| > 1 {
      PlainAt(items[1..], 0);
    }
  }

  lemma {:induction false} ArgsCounted(m: Sem, f: Env, es: Exprs, w: World)
    requires EvalArgs(m, f, es, w).Some?
    ensures |EvalArgs(m, f, es, w).value.items| == Len(es)
    decreases es
  {
    hide EvalArg;
    if es.More? {
      ArgsCounted(m, f, es.tail, EvalArg(m, f, es.head, w).value.w);
    }
  }

  lemma {:induction false} PureArgs(m: Sem, f: Env, es: Exprs, w: World)
    requires AllPure(es) && EvalArgs(m, f, es, w).Some? && PlainValues(EvalArgs(m, f, es, w).value.items).Some?
    ensures EvalArgs(m, f, es, w).value.w == w
    decreases es
  {
    hide Eval, EvalArg, IsPure;
    if es.More? {
      var p := EvalArg(m, f, es.head, w).value;
      var rest := EvalArgs(m, f, es.tail, p.w).value;
      assert ([p.item] + rest.items)[1..] == rest.items;
      ValueOfArg(m, f, es.head, w);
      PureKeepsWorld(m, f, es.head, w);
      PureArgs(m, f, es.tail, w);
    }
  }

  /** The chosen element is evaluated as if it stood alone, and the others change nothing. */
  lemma {:induction false} OnlyOneMatters(m: Sem, f: Env, es: Exprs, n: int, w: World)
    requires 1 <= n <= Len(es) && PureBut(es, n)
    requires EvalArgs(m, f, es, w).Some? && PlainValues(EvalArgs(m, f, es, w).value.items).Some?
    ensures |EvalArgs(m, f, es, w).value.items| == Len(es)
    ensures var r := EvalArgs(m, f, es, w).value;
      r.items[n - 1].Val? && Eval(m, f, Nth(es, n), w) == Some(Result(r.items[n - 1].v, r.w))
    decreases es
  {
    hide Eval, EvalArg, IsPure;
    ArgsCounted(m, f, es, w);
    var p := EvalArg(m, f, es.head, w).value;
    var rest := EvalArgs(m, f, es.tail, p.w).value;
    assert ([p.item] + rest.items)[1..] == rest.items;
    ValueOfArg(m, f, es.head, w);
    if n == 1 {
      PureArgs(m, f, es.tail, p.w);
    } else {
      PureKeepsWorld(m, f, es.head, w);
      OnlyOneMatters(m, f, es.tail, n - 1, w);
    }
  }

  /** When no other element can change anything, the chosen element alone has the value of
      `{ ... }[ n ]` and does what it does; all that is missing is the array itself. */
  lemma ChosenElement(m: Sem, f: Env, es: Exprs, n: S64, w: World)
    requires 1 <= n <= Len(es) && PureBut(es, n)
    requires Eval(m, f, EIndex(EArray(es), ENumber(n)), w).Some?
    ensures At(EArray(es), ENumber(n)) == Nth(es, n)
    ensures var r, c := Eval(m, f, EIndex(EArray(es), ENumber(n)), w).value, Eval(m, f, Nth(es, n), w);
      && c.Some? && r.v == c.value.v && |r.w.heap| == |c.value.w.heap| + 1
      && r.w == c.value.w.(heap := c.value.w.heap + [r.w.heap[|c.value.w.heap|]])
  {
    hide Eval, EvalArgs, PureBut;
    var a, e := EArray(es), EIndex(EArray(es), ENumber(n));
    OperatorForm(m, f, e, w);
    ListForm(m, f, a, w);
    OnlyOneMatters(m, f, es, n, w);
    PlainAt(EvalArgs(m, f, es, w).value.items, n - 1);
    NumberArg(m, f, n, Eval(m, f, a, w).value.w);
  }

  lemma {:induction false} PureEffects(m: Sem, f: Env, es: Exprs, w: World)
    requires AllPure(es) && EffectAll(m, f, es, w).Some?
    ensures EffectAll(m, f, es, w) == Some(w)
    decreases es
  {
    hide Effect, IsPure;
    if es.More? {
      PureDoesNothing(m, f, es.head, w);
      PureEffects(m, f, es.tail, w);
    }
  }

  lemma {:induction false} OnlyOneActs(m: Sem, f: Env, es: Exprs, n: int, w: World)
    requires 1 <= n <= Len(es) && PureBut(es, n) && EffectAll(m, f, es, w).Some?
    ensures EffectAll(m, f, es, w) == Effect(m, f, Nth(es, n), w)
    decreases es
  {
    hide Effect, IsPure;
    if n == 1 {
      PureEffects(m, f, es.tail, Effect(m, f, es.head, w).value);
    } else {
      PureDoesNothing(m, f, es.head, w);
      OnlyOneActs(m, f, es.tail, n - 1, w);
    }
  }

  /** Run for its effect, `{ ... }[ n ]` does exactly what the chosen element does. */
  lemma ChosenEffect(m: Sem, f: Env, es: Exprs, n: S64, w: World)
    requires 1 <= n <= Len(es) && PureBut(es, n)
    requires Effect(m, f, EIndex(EArray(es), ENumber(n)), w).Some?
    ensures Effect(m, f, EIndex(EArray(es), ENumber(n)), w) == Effect(m, f, Nth(es, n), w)
  {
    hide Effect, EffectAll, PureBut;
    OperatorForm(m, f, EIndex(EArray(es), ENumber(n)), w);
    ListForm(m, f, EArray(es), w);
    OnlyOneActs(m, f, es, n, w);
    NumberArg(m, f, n, Effect(m, f, EArray(es), w).value);
  }

  /** So the element may stand for the access, up to the array. */
  lemma PickMirrors(m: Sem, f: Env, es: Exprs, n: S64)
    requires Blind(m) && 1 <= n <= Len(es) && PureBut(es, n)
    ensures M.Mirrors(m, f, true, EIndex(EArray(es), ENumber(n)), Nth(es, n))
  {
    hide M.Mirrors, M.Agrees, Eval, Effect, EvalArg, PureBut, LikeWorld, Like, Grows, Blind;
    var e, c := EIndex(EArray(es), ENumber(n)), Nth(es, n);
    M.MirrorsItself(m, f, true, c);
    forall j, u, w | M.Fits(true, j, u, w)
      ensures M.Agrees(m, f, j, e, c, u, w)
    {
      var k := M.UseValue(m, f, true, c, c, j, u, w);
      var l := M.UseEffect(m, f, true, c, c, j, u, w);
      ArgForm(m, f, e, u);
      var r := Eval(m, f, e, u);
      if r.Some? {
        ChosenElement(m, f, es, n, u);
        var x := Eval(m, f, c, u).value;
        MoreGarbage(k, x.w, Eval(m, f, c, w).value.w, r.value.w.heap[|x.w.heap|]);
        ArgOfValue(m, f, c, w);
      }
      if Effect(m, f, e, u).Some? {
        ChosenEffect(m, f, es, n, u);
      }
      M.Witness(m, f, j, e, c, u, w, k, l, k);
    }
    M.Conclude(m, f, true, e, c);
  }

  // ----- when the pass is right -----

  /** The conditions under which no rule changes what the program does: no effect is dropped with an
      operand or with the other elements of a literal array, no `v := v op e` assigns `v` inside `e`,
      no undeclared array name, and left-hand sides stay of their kind. */
  predicate Safe(f: Env, t: Trust, e: Expr)
    decreases e, 1
  {
    match e
    case ERef(l) => SafePlace(f, t, l)
    case EIif(c, y, n) => Safe(f, t, c) && Safe(f, t, y) && Safe(f, t, n)
    case EList(es) => AllSafe(f, t, es)
    case EArray(es) => AllSafe(f, t, es)
    case EIndex(a, i) => SafeElement(f, t, e)
    case ECall(_, es) => AllSafe(f, t, es)
    case EField(o, _) => f.harbour ==> Safe(f, t, o)
    case EMethod(o, _, es) => (f.harbour ==> Safe(f, t, o)) && AllSafe(f, t, es)
    case EAliased(a, b) => Safe(f, t, a) && Safe(f, t, b)
    case EAssign(l, r) => SafeLeft(f, t, l) && Safe(f, t, r) && AssignOk(f, t, Reduced(f, l), Reduced(f, r))
    case EOpAssign(_, l, r) => SafeLeft(f, t, l) && Safe(f, t, r)
    case EStep(_, _, l) => SafeLeft(f, t, l)
    case EAnd(l, r) => Safe(f, t, l) && Safe(f, t, r) && DropOk(f, Reduced(f, l), Reduced(f, r), true)
    case EOr(l, r) => Safe(f, t, l) && Safe(f, t, r) && DropOk(f, Reduced(f, l), Reduced(f, r), false)
    case ENot(l) => Safe(f, t, l) && NotSafe(f, Reduced(f, l))
    case ENegate(l) => Safe(f, t, l)
    case EBin(_, l, r) => Safe(f, t, l) && Safe(f, t, r)
    case _ => true
  }

  predicate AllSafe(f: Env, t: Trust, es: Exprs)
    decreases es, 0
  {
    es.NoMore? || (Safe(f, t, es.head) && AllSafe(f, t, es.tail))
  }

  predicate NotSafe(f: Env, e: Expr)
  {
    e.ENot? && f.extopt ==> f.harbour || Steady(f, e.e)
  }

  predicate SafeElement(f: Env, t: Trust, e: Expr)
    requires e.EIndex?
    decreases e, 0
  {
    && Safe(f, t, e.base) && Safe(f, t, e.index) && !(e.base.EVar? && e.base.x.Undeclared?)
    && TakesApart(t, Reduced(f, e.base), Reduced(f, e.index))
  }

  /** An element may be taken out of a literal array if nothing else is lost but the array. */
  predicate TakesApart(t: Trust, a: Expr, i: Expr)
  {
    Picks(a, i) ==> t.garbage && PureBut(a.items, i.n)
  }

  predicate SafeLeft(f: Env, t: Trust, l: Expr)
    decreases l, 2
  {
    match l
    case EVar(_) => true
    case EIndex(a, i) =>
      && Safe(f, t, l) && !Picks(Reduced(f, a), Reduced(f, i))
      && ByRef(f, a) == ByRef(f, Reduced(f, a)) && (ByRef(f, a) ==> SafeLeft(f, t, a))
    case EField(_, _) => Safe(f, t, l)
    case EMethod(_, _, _) => Safe(f, t, l)
    case EIif(c, y, n) => Safe(f, t, l) && SafeLeft(f, t, y) && SafeLeft(f, t, n) && !Reduced(f, c).ELogical?
    case _ => false
  }

  predicate SafePlace(f: Env, t: Trust, l: Expr)
    decreases l, 3
  {
    match l
    case EIif(c, y, n) => Safe(f, t, c) && SafePlace(f, t, y) && SafePlace(f, t, n)
    case _ => SafeLeft(f, t, l)
  }

  ghost predicate Assumed(m: Sem, f: Env, t: Trust)
  {
    LogicLaws(m) && BitLaws(m, f) && M.Lets(m, t.garbage) && (t.spared ==> SparesLocals(m))
  }

  lemma ThenExact(m: Sem, f: Env, g: bool, a: Expr, b: Expr, c: Expr)
    requires M.Mirrors(m, f, g, a, b) && Refines(m, f, b, c)
    ensures M.Mirrors(m, f, g, a, c)
  {
    hide M.Mirrors, M.Agrees, Refines, Eval, Effect, EvalArg, LikeWorld, Like, LikeItem, Grows;
    forall j, u, w | M.Fits(g, j, u, w)
      ensures M.Agrees(m, f, j, a, c, u, w)
    {
      var k := M.UseValue(m, f, g, a, b, j, u, w);
      var l := M.UseEffect(m, f, g, a, b, j, u, w);
      var n := M.UseArg(m, f, g, a, b, j, u, w);
      Use(m, f, b, c, w);
      M.Witness(m, f, j, a, c, u, w, k, l, n);
    }
    M.Conclude(m, f, g, a, c);
  }

  lemma ExactFirst(m: Sem, f: Env, g: bool, a: Expr, b: Expr, c: Expr)
    requires Refines(m, f, a, b) && M.Mirrors(m, f, g, b, c)
    ensures M.Mirrors(m, f, g, a, c)
  {
    hide M.Mirrors, M.Agrees, Refines, Eval, Effect, EvalArg, LikeWorld, Like, LikeItem, Grows;
    forall j, u, w | M.Fits(g, j, u, w)
      ensures M.Agrees(m, f, j, a, c, u, w)
    {
      Use(m, f, a, b, u);
      var k := M.UseValue(m, f, g, b, c, j, u, w);
      var l := M.UseEffect(m, f, g, b, c, j, u, w);
      var n := M.UseArg(m, f, g, b, c, j, u, w);
      M.Witness(m, f, j, a, c, u, w, k, l, n);
    }
    M.Conclude(m, f, g, a, c);
  }

  /** Reduction preserves meaning: whatever can be evaluated before it gives the same value, world
      and trace after it, as a value, as an argument and for its effect; with `garbage`, up to the
      literal arrays it saves. */
  lemma {:induction false} ReductionRefines(m: Sem, f: Env, t: Trust, e: Expr)
    requires Assumed(m, f, t) && Safe(f, t, e)
    ensures M.Mirrors(m, f, t.garbage, e, Reduced(f, e))
    decreases e, 3
  {
    hide M.Mirrors, Assumed, Steady, IsPure, Leaves, AssignOk, DropOk;
    match e
    case ERef(l) => RefRefines(m, f, t, l);
    case EIif(_, _, _) => IifRefines(m, f, t, e);
    case EList(_) => ListRefines(m, f, t, e);
    case EArray(_) => ListRefines(m, f, t, e);
    case EIndex(_, _) => ElementRefines(m, f, t, e);
    case ECall(_, _) => ListRefines(m, f, t, e);
    case EField(_, _) => MessageRefines(m, f, t, e);
    case EMethod(_, _, _) => MessageRefines(m, f, t, e);
    case EAliased(_, _) => AliasedRefines(m, f, t, e);
    case EAssign(_, _) => AssignmentRefines(m, f, t, e);
    case EOpAssign(_, _, _) => UpdatingRefines(m, f, t, e);
    case EStep(_, _, _) => UpdatingRefines(m, f, t, e);
    case EAnd(_, _) => LogicalRefines(m, f, t, e);
    case EOr(_, _) => LogicalRefines(m, f, t, e);
    case ENot(_) => UnaryRefines(m, f, t, e);
    case ENegate(_) => UnaryRefines(m, f, t, e);
    case EBin(_, _, _) => BinRefines(m, f, t, e);
    case _ => Unreduced(m, f, t, e);
  }

  lemma Unreduced(m: Sem, f: Env, t: Trust, e: Expr)
    requires Assumed(m, f, t)
    ensures M.Mirrors(m, f, t.garbage, e, e)
  {
    hide M.Mirrors, M.Lets;
    M.MirrorsItself(m, f, t.garbage, e);
  }

  lemma AssumedParts(m: Sem, f: Env, t: Trust)
    requires Assumed(m, f, t)
    ensures LogicLaws(m) && BitLaws(m, f) && M.Lets(m, t.garbage) && (t.spared ==> SparesLocals(m)) && (t.garbage
        ==> Blind(m))
  {
    hide LogicLaws, BitLaws, SparesLocals, Blind;
  }

  lemma {:induction false} AllReductionsRefine(m: Sem, f: Env, t: Trust, es: Exprs)
    requires Assumed(m, f, t) && AllSafe(f, t, es)
    ensures M.AllMirror(m, f, t.garbage, es, ReducedAll(f, es))
    decreases es, 0
  {
    hide M.Mirrors, Assumed, Safe, Reduced;
    if es.More? {
      ReductionRefines(m, f, t, es.head);
      AllReductionsRefine(m, f, t, es.tail);
    }
  }

  lemma {:induction false} BinRefines(m: Sem, f: Env, t: Trust, e: Expr)
    requires Assumed(m, f, t) && Safe(f, t, e) && e.EBin?
    ensures M.Mirrors(m, f, t.garbage, e, Reduced(f, e))
    decreases e, 2
  {
    hide M.Mirrors, M.Lets, Assumed, LogicLaws, BitLaws, SparesLocals, Blind;
    ReductionRefines(m, f, t, e.l);
    ReductionRefines(m, f, t, e.r);
    AssumedParts(m, f, t);
    M.EachBin(m, f, t.garbage, e.op, e.l, e.r, Reduced(f, e.l), Reduced(f, e.r));
  }

  lemma {:induction false} LogicalRefines(m: Sem, f: Env, t: Trust, e: Expr)
    requires Assumed(m, f, t) && Safe(f, t, e) && (e.EAnd? || e.EOr?)
    ensures M.Mirrors(m, f, t.garbage, e, Reduced(f, e))
    decreases e, 2
  {
    hide M.Mirrors, M.Lets, Refines, Assumed, LogicLaws, BitLaws, SparesLocals, Blind, DropOk;
    ReductionRefines(m, f, t, e.l);
    ReductionRefines(m, f, t, e.r);
    AssumedParts(m, f, t);
    var l, r := Reduced(f, e.l), Reduced(f, e.r);
    if e.EAnd? {
      M.EachAnd(m, f, t.garbage, e.l, e.r, l, r);
      AndOk(m, f, l, r);
      ThenExact(m, f, t.garbage, e, EAnd(l, r), MakeAnd(f, l, r));
    } else {
      M.EachOr(m, f, t.garbage, e.l, e.r, l, r);
      OrOk(m, f, l, r);
      ThenExact(m, f, t.garbage, e, EOr(l, r), MakeOr(f, l, r));
    }
  }

  lemma {:induction false} UnaryRefines(m: Sem, f: Env, t: Trust, e: Expr)
    requires Assumed(m, f, t) && Safe(f, t, e) && (e.ENot? || e.ENegate?)
    ensures M.Mirrors(m, f, t.garbage, e, Reduced(f, e))
    decreases e, 2
  {
    hide M.Mirrors, M.Lets, Refines, Assumed, LogicLaws, BitLaws, SparesLocals, Blind, Steady;
    ReductionRefines(m, f, t, e.e);
    AssumedParts(m, f, t);
    var x := Reduced(f, e.e);
    if e.ENot? {
      M.EachNot(m, f, t.garbage, e.e, x);
      NotOk(m, f, x);
      ThenExact(m, f, t.garbage, e, ENot(x), MakeNot(f, x));
    } else {
      M.EachNegate(m, f, t.garbage, e.e, x);
    }
  }

  lemma {:induction false} IifRefines(m: Sem, f: Env, t: Trust, e: Expr)
    requires Assumed(m, f, t) && Safe(f, t, e) && e.EIif?
    ensures M.Mirrors(m, f, t.garbage, e, Reduced(f, e))
    decreases e, 2
  {
    hide M.Mirrors, M.Lets, Refines, Assumed, LogicLaws, BitLaws, SparesLocals, Blind;
    ReductionRefines(m, f, t, e.cond);
    ReductionRefines(m, f, t, e.yes);
    ReductionRefines(m, f, t, e.no);
    AssumedParts(m, f, t);
    var c, y, n := Reduced(f, e.cond), Reduced(f, e.yes), Reduced(f, e.no);
    M.EachIif(m, f, t.garbage, e.cond, e.yes, e.no, c, y, n);
    PickOk(m, f, c, y, n);
    ThenExact(m, f, t.garbage, e, EIif(c, y, n), Pick(c, y, n));
  }

  lemma {:induction false} ListRefines(m: Sem, f: Env, t: Trust, e: Expr)
    requires Assumed(m, f, t) && Safe(f, t, e) && (e.EList? || e.EArray? || e.ECall?)
    ensures M.Mirrors(m, f, t.garbage, e, Reduced(f, e))
    decreases e, 2
  {
    hide M.Mirrors, M.AllMirror, M.Lets, Refines, Assumed, LogicLaws, BitLaws, SparesLocals, Blind, Folded;
    var es := if e.ECall? then e.args else e.items;
    AllReductionsRefine(m, f, t, es);
    AssumedParts(m, f, t);
    var ds := ReducedAll(f, es);
    if e.EList? {
      M.EachList(m, f, t.garbage, es, ds);
      if f.harbour {
        StripOk(m, f, EList(ds));
        ThenExact(m, f, t.garbage, e, EList(ds), Strip(EList(ds)));
      }
    } else if e.EArray? {
      M.EachArray(m, f, t.garbage, es, ds);
    } else {
      M.EachCall(m, f, t.garbage, e.f, es, ds);
      MakeCallOk(m, f, e.f, ds);
      ThenExact(m, f, t.garbage, e, ECall(e.f, ds), MakeCall(f, e.f, ds));
    }
  }

  lemma {:induction false} ElementRefines(m: Sem, f: Env, t: Trust, e: Expr)
    requires Assumed(m, f, t) && Safe(f, t, e) && e.EIndex?
    ensures M.Mirrors(m, f, t.garbage, e, Reduced(f, e))
    decreases e, 2
  {
    hide M.Mirrors, M.Lets, Refines, Assumed, LogicLaws, BitLaws, SparesLocals, Blind, PureBut;
    ReductionRefines(m, f, t, e.base);
    ReductionRefines(m, f, t, e.index);
    AssumedParts(m, f, t);
    var a, i := Reduced(f, e.base), Reduced(f, e.index);
    M.EachIndex(m, f, t.garbage, e.base, e.index, a, i);
    if Picks(a, i) {
      PickMirrors(m, f, a.items, i.n);
      M.MirrorsThen(m, f, true, e, EIndex(a, i), Nth(a.items, i.n));
    }
  }

  lemma {:induction false} MessageRefines(m: Sem, f: Env, t: Trust, e: Expr)
    requires Assumed(m, f, t) && Safe(f, t, e) && (e.EField? || e.EMethod?)
    ensures M.Mirrors(m, f, t.garbage, e, Reduced(f, e))
    decreases e, 2
  {
    hide M.Mirrors, M.AllMirror, M.Lets, Assumed, LogicLaws, BitLaws, SparesLocals, Blind;
    var o := if f.harbour then Reduced(f, e.obj) else e.obj;
    if f.harbour {
      ReductionRefines(m, f, t, e.obj);
    } else {
      Unreduced(m, f, t, e.obj);
    }
    AssumedParts(m, f, t);
    if e.EField? {
      M.EachField(m, f, t.garbage, e.obj, o, e.msg);
    } else {
      AllReductionsRefine(m, f, t, e.args);
      M.EachMethod(m, f, t.garbage, e.obj, o, e.msg, e.args, ReducedAll(f, e.args));
    }
  }

  lemma {:induction false} AliasedRefines(m: Sem, f: Env, t: Trust, e: Expr)
    requires Assumed(m, f, t) && Safe(f, t, e) && e.EAliased?
    ensures M.Mirrors(m, f, t.garbage, e, Reduced(f, e))
    decreases e, 2
  {
    hide M.Mirrors, M.Lets, Assumed, LogicLaws, BitLaws, SparesLocals, Blind;
    ReductionRefines(m, f, t, e.alias);
    ReductionRefines(m, f, t, e.body);
    AssumedParts(m, f, t);
    M.EachAliased(m, f, t.garbage, e.alias, e.body, Reduced(f, e.alias), Reduced(f, e.body));
  }

  lemma {:induction false} AssignmentRefines(m: Sem, f: Env, t: Trust, e: Expr)
    requires Assumed(m, f, t) && Safe(f, t, e) && e.EAssign?
    ensures M.Mirrors(m, f, t.garbage, e, Reduced(f, e))
    decreases e, 2
  {
    hide M.Mirrors, M.SameShape, M.Lets, Refines, Assumed, LogicLaws, BitLaws, SparesLocals, Blind, AssignOk;
    LeftRefines(m, f, t, e.lhs);
    ReductionRefines(m, f, t, e.rhs);
    AssumedParts(m, f, t);
    var l, r := Reduced(f, e.lhs), Reduced(f, e.rhs);
    M.EachAssign(m, f, t.garbage, e.lhs, e.rhs, l, r);
    MakeAssignOk(m, f, t, l, r);
    ThenExact(m, f, t.garbage, e, EAssign(l, r), MakeAssign(f, l, r));
  }

  lemma {:induction false} UpdatingRefines(m: Sem, f: Env, t: Trust, e: Expr)
    requires Assumed(m, f, t) && Safe(f, t, e) && (e.EOpAssign? || e.EStep?)
    ensures M.Mirrors(m, f, t.garbage, e, Reduced(f, e))
    decreases e, 2
  {
    hide M.Mirrors, M.SameShape, M.Lets, Assumed, LogicLaws, BitLaws, SparesLocals, Blind;
    LeftRefines(m, f, t, e.lhs);
    AssumedParts(m, f, t);
    var l := Reduced(f, e.lhs);
    if e.EOpAssign? {
      ReductionRefines(m, f, t, e.rhs);
      M.EachUpdate(m, f, t.garbage, e.aop, e.lhs, e.rhs, l, Reduced(f, e.rhs));
    } else {
      M.EachStep(m, f, t.garbage, e.pre, e.inc, e.lhs, l);
    }
  }

  /** Reduced left-hand sides denote the same places. */
  lemma {:induction false} LeftRefines(m: Sem, f: Env, t: Trust, l: Expr)
    requires Assumed(m, f, t) && SafeLeft(f, t, l)
    ensures var d := Reduced(f, l);
      && M.SameShape(m, f, t.garbage, l, d) && M.Mirrors(m, f, t.garbage, l, d)
      && Left(f, d) == d && l.EField? == d.EField? && M.HasPlace(l)
    decreases l, 4
  {
    hide M.Mirrors, Assumed, PureBut, Leaves, AssignOk, DropOk;
    match l
    case EVar(_) => Unreduced(m, f, t, l);
    case EIndex(a, i) =>
      ReductionRefines(m, f, t, l);
      ReductionRefines(m, f, t, a);
      ReductionRefines(m, f, t, i);
      if ByRef(f, a) {
        LeftRefines(m, f, t, a);
      }
    case EField(o, _) => ObjectRefines(m, f, t, l);
    case EMethod(o, _, _) => ObjectRefines(m, f, t, l);
    case EIif(c, y, n) =>
      ReductionRefines(m, f, t, l);
      ReductionRefines(m, f, t, c);
      LeftRefines(m, f, t, y);
      LeftRefines(m, f, t, n);
  }

  lemma {:induction false} ObjectRefines(m: Sem, f: Env, t: Trust, l: Expr)
    requires Assumed(m, f, t) && Safe(f, t, l) && (l.EField? || l.EMethod?)
    ensures M.SameShape(m, f, t.garbage, l, Reduced(f, l)) && M.Mirrors(m, f, t.garbage, l, Reduced(f, l))
    decreases l, 3
  {
    hide M.Mirrors, Assumed;
    MessageRefines(m, f, t, l);
    if f.harbour {
      ReductionRefines(m, f, t, l.obj);
    } else {
      Unreduced(m, f, t, l.obj);
    }
  }

  lemma RefOfBack(m: Sem, f: Env, t: Expr)
    ensures Refines(m, f, RefOf(t), ERef(t))
  {
    hide Refines;
    forall w
      ensures Agrees(m, f, RefOf(t), ERef(t), w)
    {
      RefArg(m, f, t, w);
      if t.EIif? {
        ChoiceForm(m, f, RefOf(t), w);
        var r := Eval(m, f, t.cond, w);
        if r.Some? {
          RefArg(m, f, t.yes, r.value.w);
          RefArg(m, f, t.no, r.value.w);
        }
      }
    }
    Conclude(m, f, RefOf(t), ERef(t));
  }

  /** `@` distributed over the branches, whatever the branches reduce to. */
  lemma {:induction false} RefRefines(m: Sem, f: Env, t: Trust, l: Expr)
    requires Assumed(m, f, t) && SafePlace(f, t, l)
    ensures M.Mirrors(m, f, t.garbage, ERef(l), RefOf(Reduced(f, l)))
    decreases l, 5
  {
    hide M.Mirrors, M.SameShape, M.Lets, Refines, Assumed, LogicLaws, BitLaws, SparesLocals, Blind, Safe;
    var g := t.garbage;
    if l.EIif? {
      var c, y, n := Reduced(f, l.cond), Reduced(f, l.yes), Reduced(f, l.no);
      ReductionRefines(m, f, t, l.cond);
      RefRefines(m, f, t, l.yes);
      RefRefines(m, f, t, l.no);
      AssumedParts(m, f, t);
      RefOfOk(m, f, l);
      var spread, chosen := EIif(l.cond, ERef(l.yes), ERef(l.no)), EIif(c, RefOf(y), RefOf(n));
      M.EachIif(m, f, g, l.cond, ERef(l.yes), ERef(l.no), c, RefOf(y), RefOf(n));
      ExactFirst(m, f, g, ERef(l), spread, chosen);
      if c.ELogical? {
        PickOk(m, f, c, RefOf(y), RefOf(n));
        ThenExact(m, f, g, ERef(l), chosen, Pick(c, RefOf(y), RefOf(n)));
      } else {
        GatherRefs(m, f, c, y, n);
        ThenExact(m, f, g, ERef(l), chosen, EIif(c, ERef(y), ERef(n)));
      }
    } else {
      LeftRefines(m, f, t, l);
      AssumedParts(m, f, t);
      M.EachRef(m, f, g, l, Reduced(f, l));
      KeepsForm(f, t, l);
    }
  }

  lemma KeepsForm(f: Env, t: Trust, l: Expr)
    requires SafeLeft(f, t, l) && !l.EIif?
    ensures RefOf(Reduced(f, l)) == ERef(Reduced(f, l))
  {
    hide Safe;
  }

  lemma GatherRefs(m: Sem, f: Env, c: Expr, y: Expr, n: Expr)
    ensures Refines(m, f, EIif(c, RefOf(y), RefOf(n)), EIif(c, ERef(y), ERef(n)))
  {
    hide Refines, Agrees;
    RefOfBack(m, f, y);
    RefOfBack(m, f, n);
    forall w
      ensures Agrees(m, f, EIif(c, RefOf(y), RefOf(n)), EIif(c, ERef(y), ERef(n)), w)
    {
      SameBranches(m, f, c, RefOf(y), RefOf(n), ERef(y), ERef(n), w);
    }
    Conclude(m, f, EIif(c, RefOf(y), RefOf(n)), EIif(c, ERef(y), ERef(n)));
  }

  lemma SameBranches(m: Sem, f: Env, c: Expr, y: Expr, n: Expr, y2: Expr, n2: Expr, w: World)
    requires Refines(m, f, y, y2) && Refines(m, f, n, n2)
    ensures Agrees(m, f, EIif(c, y, n), EIif(c, y2, n2), w)
  {
    hide Refines, Eval, Effect, EvalArg;
    var e, d := EIif(c, y, n), EIif(c, y2, n2);
    ChoiceForm(m, f, e, w);
    ChoiceForm(m, f, d, w);
    var r := Eval(m, f, c, w);
    if r.Some? {
      Use(m, f, y, y2, r.value.w);
      Use(m, f, n, n2, r.value.w);
    }
  }

  /** Where no literal array is taken apart, nothing is lost at all. */
  lemma ReductionExact(m: Sem, f: Env, spared: bool, e: Expr)
    requires Assumed(m, f, Trust(false, spared)) && Safe(f, Trust(false, spared), e)
    ensures Refines(m, f, e, Reduced(f, e))
  {
    hide M.Mirrors, Assumed, Safe, Refines, Eval, Effect, EvalArg, Reduced;
    ReductionRefines(m, f, Trust(false, spared), e);
    forall w
      ensures Agrees(m, f, e, Reduced(f, e), w)
    {
      var k := M.UseValue(m, f, false, e, Reduced(f, e), Same, w, w);
      var l := M.UseEffect(m, f, false, e, Reduced(f, e), Same, w, w);
      var n := M.UseArg(m, f, false, e, Reduced(f, e), Same, w, w);
      if EvalArg(m, f, e, w).Some? {
        SameItem(EvalArg(m, f, e, w).value.item, EvalArg(m, f, Reduced(f, e), w).value.item);
      }
    }
    Conclude(m, f, e, Reduced(f, e));
  }
}
