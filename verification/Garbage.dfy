/** Code run for its effect leaves out every literal array whose value is not used, however deeply it
    is nested; what differs is only those arrays. */
module Garbage {
  import opened Wrappers
  import opened Runtime
  import opened Pcode
  import opened Asm
  import opened Expr
  import opened Compile
  import opened Correct
  import opened Forms
  import opened Effects
  import opened Likeness
  import M = Mirror

  /** No `o:x++` read twice stands where the value is dropped. */
  predicate Loose(f: Env, e: Expr)
  {
    match e
    case EIif(_, t, n) => Loose(f, t) && Loose(f, n)
    case EList(es) => LooseLast(f, es)
    case EArray(es) => AllLoose(f, es)
    case EIndex(a, i) => Loose(f, a) && Loose(f, i)
    case EAliased(_, b) => Loose(f, b)
    case EStep(pre, _, l) => pre || !l.EField? || (f.harbour && !f.extopt)
    case EAnd(_, r) => f.shortcuts ==> Loose(f, r)
    case EOr(_, r) => f.shortcuts ==> Loose(f, r)
    case ENot(l) => f.harbour ==> Loose(f, l)
    case ENegate(l) => f.harbour ==> Loose(f, l)
    case EBin(_, l, r) => f.harbour ==> Loose(f, l) && Loose(f, r)
    case _ => true
  }

  predicate LooseLast(f: Env, es: Exprs)
  {
    es.More? && if es.tail.NoMore? then Loose(f, es.head) else LooseLast(f, es.tail)
  }

  predicate AllLoose(f: Env, es: Exprs)
  {
    es.NoMore? || (Loose(f, es.head) && AllLoose(f, es.tail))
  }

  // ----- expressions -----

  ghost predicate Ready(m: Sem, j: Ids, u: World, w: World)
  {
    j.Renamed? && Blind(m) && LikeWorld(j, u, w)
  }

  ghost predicate Moved(m: Sem, k: Ids, r: Outcome, s: Option<World>)
  {
    r.Some? ==> s.Some? && Ready(m, k, r.value.w, s.value)
  }

  lemma Set(m: Sem, f: Env, e: Expr, j: Ids, u: World, w: World)
    requires Ready(m, j, u, w)
    ensures M.Mirrors(m, f, true, e, e) && M.Fits(true, j, u, w) && Laws(m, j)
  {
    hide M.Mirrors, Blind, LikeWorld;
    M.MirrorsItself(m, f, true, e);
  }

  /** The value of an operand, in both worlds. */
  lemma Operand(m: Sem, f: Env, e: Expr, j: Ids, u: World, w: World) returns (k: Ids)
    requires Ready(m, j, u, w)
    ensures ValueLike(j, Eval(m, f, e, u), Eval(m, f, e, w), k)
    ensures Moved(m, k, Eval(m, f, e, u), Discard(Eval(m, f, e, w)))
  {
    hide M.Mirrors, Eval, LikeWorld, Like, Blind;
    Set(m, f, e, j, u, w);
    k := M.UseValue(m, f, true, e, e, j, u, w);
  }

  /** If the value can be computed in one world, the effect alone can be had in the other, and nothing
      is lost but arrays nothing refers to. */
  lemma {:induction false} LooseLike(m: Sem, f: Env, e: Expr, j: Ids, u: World, w: World) returns (k: Ids)
    requires Ready(m, j, u, w) && Loose(f, e) && Eval(m, f, e, u).Some?
    ensures WorldLike(j, Discard(Eval(m, f, e, u)), Effect(m, f, e, w), k)
    ensures Moved(m, k, Eval(m, f, e, u), Effect(m, f, e, w))
    decreases e, 3
  {
    hide Eval, Effect, M.Mirrors, Ready, LikeWorld, Like, Grows, Steady;
    if Steady(f, e) {
      k := SteadyLike(m, f, e, j, u, w);
    } else if e.EIif? || e.EAliased? || e.EAnd? || e.EOr? {
      k := ChoiceLike(m, f, e, j, u, w);
    } else if e.EList? || e.EArray? {
      k := ListLike(m, f, e, j, u, w);
    } else {
      k := OperandsLike(m, f, e, j, u, w);
    }
  }

  lemma SteadyLike(m: Sem, f: Env, e: Expr, j: Ids, u: World, w: World) returns (k: Ids)
    requires Ready(m, j, u, w) && Steady(f, e) && Eval(m, f, e, u).Some?
    ensures WorldLike(j, Discard(Eval(m, f, e, u)), Effect(m, f, e, w), k)
    ensures Moved(m, k, Eval(m, f, e, u), Effect(m, f, e, w))
  {
    hide Eval, Effect, M.Mirrors, LikeWorld, Blind, Steady;
    EffectIsEval(m, f, e, u);
    Set(m, f, e, j, u, w);
    k := M.UseEffect(m, f, true, e, e, j, u, w);
  }

  /** One part after another. */
  lemma Onward(m: Sem, j: Ids, k: Ids, l: Ids, u: World, w: World)
    requires Grows(j, k) && Grows(k, l) && Ready(m, l, u, w)
    ensures WorldLike(j, Some(u), Some(w), l)
  {
    hide LikeWorld, Blind, Grows;
    GrowsThen(j, k, l);
  }

  lemma {:induction false} OperandsLike(m: Sem, f: Env, e: Expr, j: Ids, u: World, w: World) returns (k: Ids)
    requires Ready(m, j, u, w) && Loose(f, e) && Eval(m, f, e, u).Some? && !Steady(f, e)
    requires !(e.EIif? || e.EAliased? || e.EAnd? || e.EOr? || e.EList? || e.EArray?)
    ensures WorldLike(j, Discard(Eval(m, f, e, u)), Effect(m, f, e, w), k)
    ensures Moved(m, k, Eval(m, f, e, u), Effect(m, f, e, w))
    decreases e, 2
  {
    hide Eval, Effect, M.Mirrors, Ready, LikeWorld, Like, Grows;
    match e
    case ENot(x) =>
      OperatorForm(m, f, e, u);
      OperatorForm(m, f, e, w);
      k := LooseLike(m, f, x, j, u, w);
    case ENegate(x) =>
      OperatorForm(m, f, e, u);
      OperatorForm(m, f, e, w);
      k := LooseLike(m, f, x, j, u, w);
    case EIndex(a, i) =>
      OperatorForm(m, f, e, u);
      OperatorForm(m, f, e, w);
      k := PairLike(m, f, e, a, i, j, u, w);
    case EBin(op, l, r) =>
      OperatorForm(m, f, e, u);
      OperatorForm(m, f, e, w);
      k := PairLike(m, f, e, l, r, j, u, w);
  }

  lemma {:induction false} PairLike(m: Sem, f: Env, e: Expr, a: Expr, b: Expr, j: Ids, u: World,
      w: World) returns (k: Ids)
    requires Ready(m, j, u, w) && Loose(f, a) && Loose(f, b) && a < e && b < e && Eval(m, f, a, u).Some?
    requires Eval(m, f, b, Eval(m, f, a, u).value.w).Some?
    ensures var u2 := Eval(m, f, b, Eval(m, f, a, u).value.w).value.w;
      && Effect(m, f, a, w).Some?
      && WorldLike(j, Some(u2), Effect(m, f, b, Effect(m, f, a, w).value), k)
      && Ready(m, k, u2, Effect(m, f, b, Effect(m, f, a, w).value).value)
    decreases e, 1
  {
    hide Eval, Effect, M.Mirrors, Ready, LikeWorld, Like, Grows, Loose;
    var k1 := LooseLike(m, f, a, j, u, w);
    var u1, w1 := Eval(m, f, a, u).value.w, Effect(m, f, a, w).value;
    k := LooseLike(m, f, b, k1, u1, w1);
    Onward(m, j, k1, k, Eval(m, f, b, u1).value.w, Effect(m, f, b, w1).value);
  }

  lemma {:induction false} ChoiceLike(m: Sem, f: Env, e: Expr, j: Ids, u: World, w: World) returns (k: Ids)
    requires Ready(m, j, u, w) && Loose(f, e) && Eval(m, f, e, u).Some? && !Steady(f, e)
    requires e.EIif? || e.EAliased? || e.EAnd? || e.EOr?
    ensures WorldLike(j, Discard(Eval(m, f, e, u)), Effect(m, f, e, w), k)
    ensures Moved(m, k, Eval(m, f, e, u), Effect(m, f, e, w))
    decreases e, 2
  {
    hide Eval, Effect, M.Mirrors, Ready, LikeWorld, Like, Grows;
    match e
    case EIif(c, t, n) =>
      ChoiceForm(m, f, e, u);
      ChoiceForm(m, f, e, w);
      k := AfterLike(m, f, e, c, t, n, true, true, j, u, w);
    case EAnd(l, r) =>
      ShortForm(m, f, e, u);
      ShortForm(m, f, e, w);
      k := AfterLike(m, f, e, l, r, r, true, false, j, u, w);
    case EOr(l, r) =>
      ShortForm(m, f, e, u);
      ShortForm(m, f, e, w);
      k := AfterLike(m, f, e, l, r, r, false, true, j, u, w);
    case EAliased(_, _) => k := AliasedLike(m, f, e, j, u, w);
  }

  /** A condition and what depends on it; `onTrue` and `onFalse` tell whether anything does. */
  lemma {:induction false} AfterLike(m: Sem, f: Env, e: Expr, c: Expr, t: Expr, n: Expr, onTrue: bool, onFalse: bool,
      j: Ids,
    u: World, w: World) returns (k: Ids)
    requires Ready(m, j, u, w) && Eval(m, f, c, u).Some? && Truth(Eval(m, f, c, u).value.v).Some?
    requires c < e && t < e && n < e && (onTrue ==> Loose(f, t)) && (onFalse ==> Loose(f, n))
    requires var r := Eval(m, f, c, u).value;
      if r.v.b then onTrue ==> Eval(m, f, t, r.w).Some? else onFalse ==> Eval(m, f, n, r.w).Some?
    ensures var r, s := Eval(m, f, c, u).value, Eval(m, f, c, w);
      && s.Some? && s.value.v == r.v
      && var goes, x := if r.v.b then onTrue else onFalse, if r.v.b then t else n;
         var u1, w1 := if goes then Eval(m, f, x, r.w).value.w else r.w, if goes then Effect(m, f, x,
             s.value.w) else Some(s.value.w);
         WorldLike(j, Some(u1), w1, k) && Ready(m, k, u1, w1.value)
    decreases e, 1
  {
    hide Eval, Effect, M.Mirrors, Ready, LikeWorld, Grows, Loose;
    k := Operand(m, f, c, j, u, w);
    var r, s := Eval(m, f, c, u).value, Eval(m, f, c, w).value;
    M.TruthLike(k, r.v, s.v);
    if if r.v.b then onTrue else onFalse {
      var k1, x := k, if r.v.b then t else n;
      k := LooseLike(m, f, x, k1, r.w, s.w);
      Onward(m, j, k1, k, Eval(m, f, x, r.w).value.w, Effect(m, f, x, s.w).value);
    }
  }

  lemma {:induction false} AliasedLike(m: Sem, f: Env, e: Expr, j: Ids, u: World, w: World) returns (k: Ids)
    requires Ready(m, j, u, w) && Loose(f, e) && Eval(m, f, e, u).Some? && e.EAliased?
    ensures WorldLike(j, Discard(Eval(m, f, e, u)), Effect(m, f, e, w), k)
    ensures Moved(m, k, Eval(m, f, e, u), Effect(m, f, e, w))
    decreases e, 1
  {
    hide Eval, Effect, M.Mirrors, LikeWorld, Like, Grows, Blind, SelectArea;
    MessageForm(m, f, e, u);
    MessageForm(m, f, e, w);
    AreaLike(j, u, w, u.area);
    var k1 := Operand(m, f, e.alias, j, u, w);
    var x, y := Eval(m, f, e.alias, u).value, Eval(m, f, e.alias, w).value;
    AliasLike(m, k1, x.v, y.v, x.w, y.w);
    var u1, w1 := SelectArea(m, x.v, x.w).value, SelectArea(m, y.v, y.w).value;
    k := LooseLike(m, f, e.body, k1, u1, w1);
    AreaLike(k, Eval(m, f, e.body, u1).value.w, Effect(m, f, e.body, w1).value, u.area);
    GrowsThen(j, k1, k);
  }

  lemma {:induction false} ListLike(m: Sem, f: Env, e: Expr, j: Ids, u: World, w: World) returns (k: Ids)
    requires Ready(m, j, u, w) && Loose(f, e) && Eval(m, f, e, u).Some? && (e.EList? || e.EArray?)
    ensures WorldLike(j, Discard(Eval(m, f, e, u)), Effect(m, f, e, w), k)
    ensures Moved(m, k, Eval(m, f, e, u), Effect(m, f, e, w))
    decreases e, 2
  {
    hide Eval, Effect, M.Mirrors, LikeWorld, Grows, Blind, EvalLast, EvalArgs, EffectAll;
    if e.EList? {
      ListForm(m, f, e, u);
      ListForm(m, f, e, w);
      k := LastLike(m, f, e.items, j, u, w);
    } else {
      ListForm(m, f, e, u);
      ListForm(m, f, e, w);
      k := ElementsLike(m, f, e.items, j, u, w);
      var r := EvalArgs(m, f, e.items, u).value;
      MoreGarbage(k, r.w, EffectAll(m, f, e.items, w).value, PlainValues(r.items).value);
    }
  }

  lemma {:induction false} LastLike(m: Sem, f: Env, es: Exprs, j: Ids, u: World, w: World) returns (k: Ids)
    requires Ready(m, j, u, w) && LooseLast(f, es) && EvalLast(m, f, es, u).Some?
    ensures WorldLike(j, Discard(EvalLast(m, f, es, u)), EffectAll(m, f, es, w), k)
    ensures Moved(m, k, EvalLast(m, f, es, u), EffectAll(m, f, es, w))
    decreases es, 0
  {
    hide Eval, Effect, M.Mirrors, Ready, LikeWorld, Grows, Loose;
    if es.tail.NoMore? {
      k := LooseLike(m, f, es.head, j, u, w);
    } else {
      var k1 := HeadLike(m, f, es.head, j, u, w);
      var u1, w1 := Effect(m, f, es.head, u).value, Effect(m, f, es.head, w).value;
      k := LastLike(m, f, es.tail, k1, u1, w1);
      Onward(m, j, k1, k, EvalLast(m, f, es.tail, u1).value.w, EffectAll(m, f, es.tail, w1).value);
    }
  }

  lemma HeadLike(m: Sem, f: Env, e: Expr, j: Ids, u: World, w: World) returns (k: Ids)
    requires Ready(m, j, u, w) && Effect(m, f, e, u).Some?
    ensures WorldLike(j, Effect(m, f, e, u), Effect(m, f, e, w), k)
    ensures Ready(m, k, Effect(m, f, e, u).value, Effect(m, f, e, w).value)
  {
    hide Effect, M.Mirrors, LikeWorld, Blind;
    Set(m, f, e, j, u, w);
    k := M.UseEffect(m, f, true, e, e, j, u, w);
  }

  lemma {:induction false} ElementsLike(m: Sem, f: Env, es: Exprs, j: Ids, u: World, w: World) returns (k: Ids)
    requires Ready(m, j, u, w) && AllLoose(f, es)
    requires EvalArgs(m, f, es, u).Some? && PlainValues(EvalArgs(m, f, es, u).value.items).Some?
    ensures WorldLike(j, Some(EvalArgs(m, f, es, u).value.w), EffectAll(m, f, es, w), k)
    ensures Ready(m, k, EvalArgs(m, f, es, u).value.w, EffectAll(m, f, es, w).value)
    decreases es, 0
  {
    hide Eval, EvalArg, Effect, M.Mirrors, LikeWorld, Grows, Blind, Loose;
    k := j;
    GrowsItself(j);
    if es.More? {
      var p := EvalArg(m, f, es.head, u).value;
      var rest := EvalArgs(m, f, es.tail, p.w).value;
      assert ([p.item] + rest.items)[1..] == rest.items;
      ValueOfArg(m, f, es.head, u);
      var k1 := LooseLike(m, f, es.head, j, u, w);
      k := ElementsLike(m, f, es.tail, k1, p.w, Effect(m, f, es.head, w).value);
      GrowsThen(j, k1, k);
    }
  }

  // ----- what it means -----

  /** In a world whose array numbers are in use, effect code and value code dropped agree up to literal
      arrays that were never built: variables, fields, area and trace correspond, and so does every
      array that was there before. */
  lemma DroppedIsLike(m: Sem, f: Env, e: Expr, w: World)
    requires Blind(m) && Closed(w) && Loose(f, e) && Eval(m, f, e, w).Some?
    ensures Effect(m, f, e, w).Some?
    ensures exists k :: Grows(Identity(w), k) && LikeWorld(k, Eval(m, f, e, w).value.w, Effect(m, f, e, w).value)
  {
    hide Eval, Effect, LikeWorld, Grows, Blind, Loose;
    var k := LooseLike(m, f, e, Identity(w), w, w);
  }

  /** The same of the two instruction sequences. */
  lemma DroppingLosesGarbage(m: Sem, f: Env, e: Expr, s: State)
    requires Lawful(m) && IsValue(f, e) && Blind(m) && Closed(s.w) && Loose(f, e) && Eval(m, f, e, s.w).Some?
    ensures var lean, full := Den(m, Eff(f, e), s), Den(m, Cat(Push(f, e), Op0(OPop)), s);
      && lean.Some? && full.Some? && lean.value.stack == full.value.stack == s.stack
      && exists k :: Grows(Identity(s.w), k) && LikeWorld(k, full.value.w, lean.value.w)
  {
    hide Exec, Push, Eff, Eval, Effect, Loose, IsValue, Lawful, Blind, LikeWorld, Grows;
    EffOk(m, f, e, s);
    DroppedOk(m, f, e, s);
    DroppedIsLike(m, f, e, s.w);
  }

  // ----- how far it goes -----

  /** Outside strict mode and without the extended optimisations that is every expression. */
  lemma {:induction false} AlwaysLoose(f: Env, e: Expr)
    requires f.harbour && !f.extopt && IsValue(f, e)
    ensures Loose(f, e)
    decreases e, 1
  {
    match e
    case EIif(_, t, n) =>
      AlwaysLoose(f, t);
      AlwaysLoose(f, n);
    case EList(es) => AlwaysLooseAll(f, es);
    case EArray(es) => AlwaysLooseAll(f, es);
    case EIndex(a, i) =>
      AlwaysLoose(f, a);
      AlwaysLoose(f, i);
    case EAliased(_, b) => AlwaysLoose(f, b);
    case EAnd(_, r) => AlwaysLoose(f, r);
    case EOr(_, r) => AlwaysLoose(f, r);
    case ENot(l) => AlwaysLoose(f, l);
    case ENegate(l) => AlwaysLoose(f, l);
    case EBin(_, l, r) =>
      AlwaysLoose(f, l);
      AlwaysLoose(f, r);
    case _ =>
  }

  lemma {:induction false} AlwaysLooseAll(f: Env, es: Exprs)
    requires f.harbour && !f.extopt && AllValues(f, es)
    ensures AllLoose(f, es) && (es.More? ==> LooseLast(f, es))
    decreases es, 0
  {
    hide Loose, IsValue;
    if es.More? {
      AlwaysLoose(f, es.head);
      AlwaysLooseAll(f, es.tail);
    }
  }

  /** No literal array at all. */
  predicate Arrayless(e: Expr)
  {
    match e
    case EIif(_, t, n) => Arrayless(t) && Arrayless(n)
    case EList(es) => AllArrayless(es)
    case EArray(_) => false
    case EIndex(a, i) => Arrayless(a) && Arrayless(i)
    case EAliased(_, b) => Arrayless(b)
    case EAnd(_, r) => Arrayless(r)
    case EOr(_, r) => Arrayless(r)
    case ENot(l) => Arrayless(l)
    case ENegate(l) => Arrayless(l)
    case EBin(_, l, r) => Arrayless(l) && Arrayless(r)
    case _ => true
  }

  predicate AllArrayless(es: Exprs)
  {
    es.NoMore? || (Arrayless(es.head) && AllArrayless(es.tail))
  }

  /** Where no literal array is dropped either, effect code does exactly what value code does. */
  lemma {:induction false} LooseIsSteady(f: Env, e: Expr)
    requires Loose(f, e) && Arrayless(e)
    ensures Steady(f, e)
    decreases e, 1
  {
    match e
    case EIif(_, t, n) =>
      LooseIsSteady(f, t);
      LooseIsSteady(f, n);
    case EList(es) => LastIsSteady(f, es);
    case EIndex(a, i) =>
      LooseIsSteady(f, a);
      LooseIsSteady(f, i);
    case EAliased(_, b) => LooseIsSteady(f, b);
    case EAnd(_, r) => if f.shortcuts { LooseIsSteady(f, r); }
    case EOr(_, r) => if f.shortcuts { LooseIsSteady(f, r); }
    case ENot(l) => if f.harbour { LooseIsSteady(f, l); }
    case ENegate(l) => if f.harbour { LooseIsSteady(f, l); }
    case EBin(_, l, r) =>
      if f.harbour {
        LooseIsSteady(f, l);
        LooseIsSteady(f, r);
      }
    case _ =>
  }

  lemma {:induction false} LastIsSteady(f: Env, es: Exprs)
    requires LooseLast(f, es) && AllArrayless(es)
    ensures SteadyLast(f, es)
    decreases es, 0
  {
    hide Loose, Steady, Arrayless;
    if es.tail.NoMore? {
      LooseIsSteady(f, es.head);
    } else {
      LastIsSteady(f, es.tail);
    }
  }
}
