/** The meaning of each form of expression, as equations. */
module Forms {
  import opened Wrappers
  import opened Runtime
  import opened Expr

  /** Operators compute from the values of their operands. */
  lemma OperatorForm(m: Sem, f: Env, e: Expr, w: World)
    ensures e.EIndex? ==>
      Eval(m, f, e, w) == (
      var ra :- Eval(m, f, e.base, w);
      var ri :- Eval(m, f, e.index, ra.w);
      var v :- Element(ri.w, ra.v, ri.v);
      Some(Result(v, ri.w)))
    ensures e.EIndex? ==>
      Effect(m, f, e, w) == (
      var w1 :- Effect(m, f, e.base, w);
      Effect(m, f, e.index, w1))
    ensures e.ENot? ==>
      Eval(m, f, e, w) == (var r :- Eval(m, f, e.e, w); var v :- m.unary(Not, r.v); Some(Result(v, r.w)))
    ensures e.ENot? ==>
      Effect(m, f, e, w) == if f.harbour then Effect(m, f, e.e, w) else Discard(Eval(m, f, e, w))
    ensures e.ENegate? ==>
      Eval(m, f, e, w) == (var r :- Eval(m, f, e.e, w); var v :- m.unary(Negate, r.v); Some(Result(v, r.w)))
    ensures e.ENegate? ==>
      Effect(m, f, e, w) == if f.harbour then Effect(m, f, e.e, w) else Discard(Eval(m, f, e, w))
    ensures e.EBin? ==>
      Eval(m, f, e, w) == (
      var rl :- Eval(m, f, e.l, w);
      var rr :- Eval(m, f, e.r, rl.w);
      var v :- m.binary(e.op, rl.v, rr.v);
      Some(Result(v, rr.w)))
    ensures e.EBin? ==>
      Effect(m, f, e, w) ==
      if f.harbour then (var w1 :- Effect(m, f, e.l, w); Effect(m, f, e.r, w1)) else Discard(Eval(m, f, e, w))
  {
    hide EffectAll, EvalArg, EvalArgs, EvalLast, EvalPre, EvalPost, EvalOpAssign, Assign, Place, Base;
  }

  /** The first operand may decide alone. */
  lemma ShortForm(m: Sem, f: Env, e: Expr, w: World)
    ensures e.EAnd? ==>
      Eval(m, f, e, w) == (
      var rl :- Eval(m, f, e.l, w);
      if f.shortcuts then
        var b :- Truth(rl.v);
        if b == true then Eval(m, f, e.r, rl.w) else Some(rl)
      else
        var rr :- Eval(m, f, e.r, rl.w);
        var v :- m.binary(Rel(LogicalAnd), rl.v, rr.v);
        Some(Result(v, rr.w)))
    ensures e.EAnd? ==>
      Effect(m, f, e, w) ==
      if f.shortcuts then
        (var rl :- Eval(m, f, e.l, w);
         var b :- Truth(rl.v);
         if b == true then Effect(m, f, e.r, rl.w) else Some(rl.w))
      else Discard(Eval(m, f, e, w))
    ensures e.EOr? ==>
      Eval(m, f, e, w) == (
      var rl :- Eval(m, f, e.l, w);
      if f.shortcuts then
        var b :- Truth(rl.v);
        if b == false then Eval(m, f, e.r, rl.w) else Some(rl)
      else
        var rr :- Eval(m, f, e.r, rl.w);
        var v :- m.binary(Rel(LogicalOr), rl.v, rr.v);
        Some(Result(v, rr.w)))
    ensures e.EOr? ==>
      Effect(m, f, e, w) ==
      if f.shortcuts then
        (var rl :- Eval(m, f, e.l, w);
         var b :- Truth(rl.v);
         if b == false then Effect(m, f, e.r, rl.w) else Some(rl.w))
      else Discard(Eval(m, f, e, w))
  {
    hide EffectAll, EvalArg, EvalArgs, EvalLast, EvalPre, EvalPost, EvalOpAssign, Assign, Place, Base;
  }

  /** Lists, literal arrays and calls. */
  lemma ListForm(m: Sem, f: Env, e: Expr, w: World)
    ensures e.EList? ==>
      Eval(m, f, e, w) == EvalLast(m, f, e.items, w)
    ensures e.EList? ==>
      Effect(m, f, e, w) == EffectAll(m, f, e.items, w)
    ensures e.EArray? ==>
      Eval(m, f, e, w) == (
      var r :- EvalArgs(m, f, e.items, w);
      var vs :- PlainValues(r.items);
      var (a, w') := NewArray(r.w, vs);
      Some(Result(a, w')))
    ensures e.EArray? ==>
      Effect(m, f, e, w) == EffectAll(m, f, e.items, w)
    ensures e.ECall? ==>
      Eval(m, f, e, w) == (var r :- EvalArgs(m, f, e.args, w); DoCall(m, e.f, r.items, r.w))
    ensures e.ECall? ==>
      Effect(m, f, e, w) == Discard(Eval(m, f, e, w))
  {
    hide EffectAll, EvalArg, EvalArgs, EvalLast, EvalPre, EvalPost, EvalOpAssign, Assign, Place, Base;
  }

  /** Messages and aliased lists. */
  lemma MessageForm(m: Sem, f: Env, e: Expr, w: World)
    ensures e.EField? ==>
      Eval(m, f, e, w) == (var r :- Eval(m, f, e.obj, w); GetField(m, r.v, e.msg, r.w))
    ensures e.EField? ==>
      Effect(m, f, e, w) == Discard(Eval(m, f, e, w))
    ensures e.EMethod? ==>
      Eval(m, f, e, w) == (
      var r :- Eval(m, f, e.obj, w);
      var args :- EvalArgs(m, f, e.args, r.w);
      DoSend(m, r.v, e.msg, args.items, args.w))
    ensures e.EMethod? ==>
      Effect(m, f, e, w) == Discard(Eval(m, f, e, w))
    ensures e.EAliased? ==>
      Eval(m, f, e, w) == (
      var ra :- Eval(m, f, e.alias, w);
      var w1 :- SelectArea(m, ra.v, ra.w);
      var r :- Eval(m, f, e.body, w1);
      Some(r.(w := r.w.(area := w.area))))
    ensures e.EAliased? ==>
      Effect(m, f, e, w) == (
      var ra :- Eval(m, f, e.alias, w);
      var w1 :- SelectArea(m, ra.v, ra.w);
      var w2 :- Effect(m, f, e.body, w1);
      Some(w2.(area := w.area)))
  {
    hide EffectAll, EvalArg, EvalArgs, EvalLast, EvalPre, EvalPost, EvalOpAssign, Assign, Place, Base;
  }

  /** Assignments, updates and steps. */
  lemma AssignForm(m: Sem, f: Env, e: Expr, w: World)
    ensures e.EAssign? && e.lhs.EField? ==>
      Eval(m, f, e, w) == (
      var o :- Eval(m, f, e.lhs.obj, w);
      var r :- Eval(m, f, e.rhs, o.w);
      PutField(m, f, o.v, e.lhs.msg, r.v, r.w))
    ensures e.EAssign? && e.lhs.EField? ==>
      Effect(m, f, e, w) == Discard(Eval(m, f, e, w))
    ensures e.EAssign? && !e.lhs.EField? ==>
      Eval(m, f, e, w) == (
      var r :- Eval(m, f, e.rhs, w);
      var w' :- Assign(m, f, e.lhs, r.v, r.w);
      Some(Result(r.v, w')))
    ensures e.EAssign? && !e.lhs.EField? ==>
      Effect(m, f, e, w) == Discard(Eval(m, f, e, w))
    ensures e.EOpAssign? ==>
      Eval(m, f, e, w) == EvalOpAssign(m, f, e, w)
    ensures e.EOpAssign? ==>
      Effect(m, f, e, w) == Discard(Eval(m, f, e, w))
    ensures e.EStep? ==>
      Eval(m, f, e, w) == if e.pre then EvalPre(m, f, e, w) else EvalPost(m, f, e, w)
    ensures e.EStep? ==>
      Effect(m, f, e, w) == Discard(EvalPre(m, f, e, w))
  {
    hide EffectAll, EvalArg, EvalArgs, EvalLast, EvalPre, EvalPost, EvalOpAssign, Assign, Place, Base;
  }

  /** A condition picks what is evaluated. */
  lemma ChoiceForm(m: Sem, f: Env, e: Expr, w: World)
    ensures e.EIif? ==>
      Eval(m, f, e, w) == (
      var r :- Eval(m, f, e.cond, w);
      var b :- Truth(r.v);
      if b then Eval(m, f, e.yes, r.w) else Eval(m, f, e.no, r.w))
    ensures e.EIif? ==>
      Effect(m, f, e, w) == (
      var r :- Eval(m, f, e.cond, w);
      var b :- Truth(r.v);
      if b then Effect(m, f, e.yes, r.w) else Effect(m, f, e.no, r.w))
    ensures e.EIif? ==>
      EvalArg(m, f, e, w) == (
      var r :- Eval(m, f, e.cond, w);
      var b :- Truth(r.v);
      if b then EvalArg(m, f, e.yes, r.w) else EvalArg(m, f, e.no, r.w))
  {
    hide EffectAll, EvalArgs, EvalLast, EvalPre, EvalPost, EvalOpAssign, Assign, Place, Base;
  }

  /** Whatever is not a reference or a choice is pushed as its value. */
  function Lifted(r: Outcome): Option<Pushed>
  {
    var r' :- r;
    Some(Pushed(Val(r'.v), r'.w))
  }

  lemma ArgForm(m: Sem, f: Env, e: Expr, w: World)
    requires !e.ERef? && !e.EIif?
    ensures EvalArg(m, f, e, w) == Lifted(Eval(m, f, e, w))
  {
    hide Eval, Place;
  }

  /** Whatever has a value is pushed as that value. */
  lemma {:induction false} ArgOfValue(m: Sem, f: Env, e: Expr, w: World)
    requires Eval(m, f, e, w).Some?
    ensures EvalArg(m, f, e, w) == Some(Pushed(Val(Eval(m, f, e, w).value.v), Eval(m, f, e, w).value.w))
    decreases e
  {
    if e.EIif? {
      var r := Eval(m, f, e.cond, w).value;
      ArgOfValue(m, f, if r.v.b then e.yes else e.no, r.w);
    }
  }

  lemma LiteralValue(m: Sem, f: Env, e: Expr, w: World)
    ensures e.ELogical? ==> Eval(m, f, e, w) == Some(Result(Logical(e.b), w)) && Effect(m, f, e, w) == Some(w)
    ensures e.ELogical? ==> EvalArg(m, f, e, w) == Some(Pushed(Val(Logical(e.b)), w))
  {
  }

  lemma RefArg(m: Sem, f: Env, t: Expr, w: World)
    ensures EvalArg(m, f, ERef(t), w) == (var p :- Place(m, f, t, w); Some(Pushed(RefTo(p.loc), p.w)))
    ensures Eval(m, f, ERef(t), w) == None && Effect(m, f, ERef(t), w) == None
  {
    hide Place;
  }

  /** An item that is a value is the value of the expression. */
  lemma {:induction false} ValueOfArg(m: Sem, f: Env, e: Expr, w: World)
    requires EvalArg(m, f, e, w).Some? && EvalArg(m, f, e, w).value.item.Val?
    ensures var p := EvalArg(m, f, e, w).value; Eval(m, f, e, w) == Some(Result(p.item.v, p.w))
    decreases e
  {
    hide Effect, Place;
    if e.EIif? {
      var r := Eval(m, f, e.cond, w).value;
      ValueOfArg(m, f, if r.v.b then e.yes else e.no, r.w);
    }
  }

  /** Literals: nothing has to be run for their effect. */
  predicate IsSilent(e: Expr)
  {
    e.ENil? || e.ELogical? || e.ENumber? || e.EAliasSym?
  }

  /** The other forms: nothing at all, or what computing the value does. */
  lemma PlainEffect(m: Sem, f: Env, e: Expr, w: World)
    requires !e.EIif? && !e.EList? && !e.EArray? && !e.EIndex? && !e.EAliased? && !e.EStep? && !e.EAnd? && !e.EOr?
    requires !e.ENot? && !e.ENegate? && !e.EBin?
    ensures Effect(m, f, e, w) == if IsSilent(e) then Some(w) else Discard(Eval(m, f, e, w))
    ensures IsSilent(e) ==> Eval(m, f, e, w).Some? && Eval(m, f, e, w).value.w == w
  {
    hide EffectAll, EvalPre, EvalPost, EvalArgs, EvalArg, EvalLast, EvalOpAssign, Assign, Place, Base;
  }
}
