/** Replacing one expression by another inside a larger one, in worlds that may differ in the numbers
    of their arrays; every construct of the language preserves the relation. */
module Mirror {
  import opened Wrappers
  import opened Runtime
  import opened Expr
  import opened Forms
  import opened Likeness

  ghost predicate ItemLike(j: Ids, r: Option<Pushed>, s: Option<Pushed>, k: Ids)
  {
    r.Some? ==> s.Some? && Grows(j, k) && LikeItem(k, r.value.item, s.value.item) && LikeWorld(k, r.value.w, s.value.w)
  }

  ghost predicate AllLike(j: Ids, r: Option<PushedAll>, s: Option<PushedAll>, k: Ids)
  {
    r.Some? ==>
      && s.Some?
      && Grows(j, k)
      && LikeItems(k, r.value.items, s.value.items)
      && LikeWorld(k, r.value.w, s.value.w)
  }

  ghost predicate PlaceLike(j: Ids, r: Option<Placed>, s: Option<Placed>, k: Ids)
  {
    r.Some? ==> s.Some? && Grows(j, k) && LikeLoc(k, r.value.loc, s.value.loc) && LikeWorld(k, r.value.w, s.value.w)
  }

  /** Wherever `e` runs without error in the one world, `d` runs in the other, with a corresponding
      value, effect and argument. */
  ghost predicate Agrees(m: Sem, f: Env, j: Ids, e: Expr, d: Expr, u: World, w: World)
  {
    && (exists k :: ValueLike(j, Eval(m, f, e, u), Eval(m, f, d, w), k))
    && (exists k :: WorldLike(j, Effect(m, f, e, u), Effect(m, f, d, w), k))
    && (exists k :: ItemLike(j, EvalArg(m, f, e, u), EvalArg(m, f, d, w), k))
  }

  /** `garbage` tells whether worlds may differ in their arrays; if not, they are equal. */
  ghost predicate Fits(garbage: bool, j: Ids, u: World, w: World)
  {
    j.Renamed? == garbage && LikeWorld(j, u, w)
  }

  ghost predicate ValueFits(garbage: bool, r: Outcome, s: Outcome, k: Ids)
  {
    r.Some? ==> s.Some? && Fits(garbage, k, r.value.w, s.value.w)
  }

  ghost predicate EffectFits(garbage: bool, r: Option<World>, s: Option<World>, k: Ids)
  {
    r.Some? ==> s.Some? && Fits(garbage, k, r.value, s.value)
  }

  ghost predicate ArgFits(garbage: bool, r: Option<Pushed>, s: Option<Pushed>, k: Ids)
  {
    r.Some? ==> s.Some? && Fits(garbage, k, r.value.w, s.value.w)
  }

  ghost predicate Mirrors(m: Sem, f: Env, garbage: bool, e: Expr, d: Expr)
  {
    forall j, u, w :: Fits(garbage, j, u, w) ==> Agrees(m, f, j, e, d, u, w)
  }

  ghost predicate AllMirror(m: Sem, f: Env, garbage: bool, es: Exprs, ds: Exprs)
  {
    match (es, ds)
    case (NoMore, NoMore) => true
    case (More(e, rest), More(d, rest')) => Mirrors(m, f, garbage, e, d) && AllMirror(m, f, garbage, rest, rest')
    case _ => false
  }

  /** What is asked of the machine. */
  ghost predicate Lets(m: Sem, garbage: bool)
  {
    garbage ==> Blind(m)
  }

  lemma Allowed(m: Sem, garbage: bool, j: Ids)
    requires Lets(m, garbage) && j.Renamed? == garbage
    ensures Laws(m, j)
  {
    hide Blind;
  }

  lemma FitsGrown(garbage: bool, j: Ids, k: Ids, u: World, w: World, u': World, w': World)
    requires Fits(garbage, j, u, w) && Grows(j, k) && LikeWorld(k, u', w')
    ensures Fits(garbage, k, u', w')
  {
    hide LikeWorld;
  }

  // ----- using and establishing the relation -----

  lemma UseValue(m: Sem, f: Env, g: bool, e: Expr, d: Expr, j: Ids, u: World, w: World) returns (k: Ids)
    requires Mirrors(m, f, g, e, d) && Fits(g, j, u, w)
    ensures ValueLike(j, Eval(m, f, e, u), Eval(m, f, d, w), k)
    ensures ValueFits(g, Eval(m, f, e, u), Eval(m, f, d, w), k)
  {
    hide Eval, Effect, EvalArg, LikeWorld, Like;
    assert Agrees(m, f, j, e, d, u, w);
    k :| ValueLike(j, Eval(m, f, e, u), Eval(m, f, d, w), k);
  }

  lemma UseEffect(m: Sem, f: Env, g: bool, e: Expr, d: Expr, j: Ids, u: World, w: World) returns (k: Ids)
    requires Mirrors(m, f, g, e, d) && Fits(g, j, u, w)
    ensures WorldLike(j, Effect(m, f, e, u), Effect(m, f, d, w), k)
    ensures EffectFits(g, Effect(m, f, e, u), Effect(m, f, d, w), k)
  {
    hide Eval, Effect, EvalArg, LikeWorld;
    assert Agrees(m, f, j, e, d, u, w);
    k :| WorldLike(j, Effect(m, f, e, u), Effect(m, f, d, w), k);
  }

  lemma UseArg(m: Sem, f: Env, g: bool, e: Expr, d: Expr, j: Ids, u: World, w: World) returns (k: Ids)
    requires Mirrors(m, f, g, e, d) && Fits(g, j, u, w)
    ensures ItemLike(j, EvalArg(m, f, e, u), EvalArg(m, f, d, w), k)
    ensures ArgFits(g, EvalArg(m, f, e, u), EvalArg(m, f, d, w), k)
  {
    hide Eval, Effect, EvalArg, LikeWorld, LikeItem;
    assert Agrees(m, f, j, e, d, u, w);
    k :| ItemLike(j, EvalArg(m, f, e, u), EvalArg(m, f, d, w), k);
  }

  lemma Conclude(m: Sem, f: Env, g: bool, e: Expr, d: Expr)
    requires forall j, u, w | Fits(g, j, u, w) :: Agrees(m, f, j, e, d, u, w)
    ensures Mirrors(m, f, g, e, d)
  {
  }

  /** Everything but a reference and a choice is pushed as its value. */
  lemma Combine(m: Sem, f: Env, j: Ids, e: Expr, d: Expr, u: World, w: World, k: Ids, l: Ids)
    requires !e.ERef? && !e.EIif? && !d.ERef? && !d.EIif?
    requires ValueLike(j, Eval(m, f, e, u), Eval(m, f, d, w), k)
    requires WorldLike(j, Effect(m, f, e, u), Effect(m, f, d, w), l)
    ensures Agrees(m, f, j, e, d, u, w)
  {
    hide Eval, Effect, EvalArg, LikeWorld, Like;
    ArgForm(m, f, e, u);
    ArgForm(m, f, d, w);
    assert ItemLike(j, EvalArg(m, f, e, u), EvalArg(m, f, d, w), k);
  }

  /** The forms whose effect is that of computing the value. */
  lemma CombineSame(m: Sem, f: Env, j: Ids, e: Expr, d: Expr, u: World, w: World, k: Ids)
    requires !e.ERef? && !e.EIif? && !d.ERef? && !d.EIif?
    requires Effect(m, f, e, u) == Discard(Eval(m, f, e, u)) && Effect(m, f, d, w) == Discard(Eval(m, f, d, w))
    requires ValueLike(j, Eval(m, f, e, u), Eval(m, f, d, w), k)
    ensures Agrees(m, f, j, e, d, u, w)
  {
    hide Eval, Effect, EvalArg, LikeWorld, Like;
    Combine(m, f, j, e, d, u, w, k, k);
  }

  /** Two operands, one after the other. */
  lemma UseBoth(m: Sem, f: Env, g: bool, l: Expr, r: Expr, l2: Expr, r2: Expr, j: Ids, u: World,
      w: World) returns (k: Ids)
    requires Mirrors(m, f, g, l, l2) && Mirrors(m, f, g, r, r2) && Fits(g, j, u, w)
    ensures var a, b := Eval(m, f, l, u), Eval(m, f, l2, w);
      a.Some? ==>
        && b.Some?
        && var c, d := Eval(m, f, r, a.value.w), Eval(m, f, r2, b.value.w);
           c.Some? ==>
             d.Some? && Grows(j, k) && Like(k, a.value.v, b.value.v) && Like(k, c.value.v, d.value.v)
             && Fits(g, k, c.value.w, d.value.w)
  {
    hide Eval, Mirrors, LikeWorld, Like, Grows, Fits;
    k := UseValue(m, f, g, l, l2, j, u, w);
    var a, b := Eval(m, f, l, u), Eval(m, f, l2, w);
    if a.Some? {
      var k2 := UseValue(m, f, g, r, r2, k, a.value.w, b.value.w);
      if Eval(m, f, r, a.value.w).Some? {
        Carry(k, k2, a.value.v, b.value.v);
        GrowsThen(j, k, k2);
      }
      k := k2;
    }
  }

  function BothEffects(m: Sem, f: Env, l: Expr, r: Expr, w: World): Option<World>
  {
    var w1 :- Effect(m, f, l, w);
    Effect(m, f, r, w1)
  }

  lemma UseEffects(m: Sem, f: Env, g: bool, l: Expr, r: Expr, l2: Expr, r2: Expr, j: Ids, u: World,
      w: World) returns (k: Ids)
    requires Mirrors(m, f, g, l, l2) && Mirrors(m, f, g, r, r2) && Fits(g, j, u, w)
    ensures WorldLike(j, BothEffects(m, f, l, r, u), BothEffects(m, f, l2, r2, w), k)
  {
    hide Effect, Mirrors, LikeWorld, Grows, Fits;
    k := UseEffect(m, f, g, l, l2, j, u, w);
    var a, b := Effect(m, f, l, u), Effect(m, f, l2, w);
    if a.Some? {
      var k1 := k;
      k := UseEffect(m, f, g, r, r2, k1, a.value, b.value);
      AfterWorld(j, k1, k, Effect(m, f, r, a.value), Effect(m, f, r2, b.value));
    }
  }

  /** A world known to correspond already, one step later. */
  lemma After(j: Ids, k: Ids, l: Ids, r: Outcome, s: Outcome)
    requires Grows(j, k) && ValueLike(k, r, s, l)
    ensures ValueLike(j, r, s, l)
  {
    hide LikeWorld, Like, Grows;
    if r.Some? {
      GrowsThen(j, k, l);
    }
  }

  lemma AfterWorld(j: Ids, k: Ids, l: Ids, r: Option<World>, s: Option<World>)
    requires Grows(j, k) && WorldLike(k, r, s, l)
    ensures WorldLike(j, r, s, l)
  {
    hide LikeWorld, Grows;
    if r.Some? {
      GrowsThen(j, k, l);
    }
  }

  lemma AfterItem(j: Ids, k: Ids, l: Ids, r: Option<Pushed>, s: Option<Pushed>)
    requires Grows(j, k) && ItemLike(k, r, s, l)
    ensures ItemLike(j, r, s, l)
  {
    hide LikeWorld, LikeItem, Grows;
    if r.Some? {
      GrowsThen(j, k, l);
    }
  }

  lemma Witness(m: Sem, f: Env, j: Ids, e: Expr, d: Expr, u: World, w: World, a: Ids, b: Ids, c: Ids)
    requires ValueLike(j, Eval(m, f, e, u), Eval(m, f, d, w), a)
    requires WorldLike(j, Effect(m, f, e, u), Effect(m, f, d, w), b)
    requires ItemLike(j, EvalArg(m, f, e, u), EvalArg(m, f, d, w), c)
    ensures Agrees(m, f, j, e, d, u, w)
  {
    hide Eval, Effect, EvalArg, ValueLike, WorldLike, ItemLike;
  }

  // ----- operators -----

  lemma EachBin(m: Sem, f: Env, g: bool, op: BinOp, l: Expr, r: Expr, l2: Expr, r2: Expr)
    requires Lets(m, g) && Mirrors(m, f, g, l, l2) && Mirrors(m, f, g, r, r2)
    ensures Mirrors(m, f, g, EBin(op, l, r), EBin(op, l2, r2))
  {
    hide Eval, Effect, EvalArg, Mirrors, Lets, Laws, LikeWorld, Like, Grows, Agrees;
    var e, d := EBin(op, l, r), EBin(op, l2, r2);
    forall j, u, w | Fits(g, j, u, w)
      ensures Agrees(m, f, j, e, d, u, w)
    {
      OperatorForm(m, f, e, u);
      OperatorForm(m, f, d, w);
      var k := UseBoth(m, f, g, l, r, l2, r2, j, u, w);
      var c := UseEffects(m, f, g, l, r, l2, r2, j, u, w);
      var a, b := Eval(m, f, l, u), Eval(m, f, l2, w);
      if a.Some? && Eval(m, f, r, a.value.w).Some? {
        Allowed(m, g, k);
        BinaryLike(m, k, op, a.value.v, b.value.v, Eval(m, f, r, a.value.w).value.v, Eval(m, f, r2, b.value.w).value.v);
      }
      Combine(m, f, j, e, d, u, w, k, if f.harbour then c else k);
    }
    Conclude(m, f, g, e, d);
  }

  lemma EachIndex(m: Sem, f: Env, g: bool, l: Expr, r: Expr, l2: Expr, r2: Expr)
    requires Lets(m, g) && Mirrors(m, f, g, l, l2) && Mirrors(m, f, g, r, r2)
    ensures Mirrors(m, f, g, EIndex(l, r), EIndex(l2, r2))
  {
    hide Eval, Effect, EvalArg, Mirrors, Lets, Laws, LikeWorld, Like, Grows, Element, Agrees;
    var e, d := EIndex(l, r), EIndex(l2, r2);
    forall j, u, w | Fits(g, j, u, w)
      ensures Agrees(m, f, j, e, d, u, w)
    {
      OperatorForm(m, f, e, u);
      OperatorForm(m, f, d, w);
      var k := UseBoth(m, f, g, l, r, l2, r2, j, u, w);
      var c := UseEffects(m, f, g, l, r, l2, r2, j, u, w);
      var a, b := Eval(m, f, l, u), Eval(m, f, l2, w);
      if a.Some? && Eval(m, f, r, a.value.w).Some? {
        var x, y := Eval(m, f, r, a.value.w).value, Eval(m, f, r2, b.value.w).value;
        ElementLike(k, x.w, y.w, a.value.v, b.value.v, x.v, y.v);
      }
      Combine(m, f, j, e, d, u, w, k, c);
    }
    Conclude(m, f, g, e, d);
  }

  /** The operators that may stop after their first operand. */
  lemma ShortLike(m: Sem, f: Env, g: bool, e: Expr, d: Expr, j: Ids, u: World, w: World) returns (k: Ids, c: Ids)
    requires f.shortcuts && ((e.EAnd? && d.EAnd?) || (e.EOr? && d.EOr?))
    requires Mirrors(m, f, g, e.l, d.l) && Mirrors(m, f, g, e.r, d.r) && Fits(g, j, u, w)
    ensures ValueLike(j, Eval(m, f, e, u), Eval(m, f, d, w), k)
    ensures WorldLike(j, Effect(m, f, e, u), Effect(m, f, d, w), c)
  {
    hide Eval, Effect, Mirrors, LikeWorld, Like, Grows, Fits;
    ShortForm(m, f, e, u);
    ShortForm(m, f, d, w);
    k := UseValue(m, f, g, e.l, d.l, j, u, w);
    c := k;
    var a, b := Eval(m, f, e.l, u), Eval(m, f, d.l, w);
    if a.Some? {
      TruthLike(k, a.value.v, b.value.v);
      if a.value.v == Logical(e.EAnd?) {
        var k1 := k;
        k := UseValue(m, f, g, e.r, d.r, k1, a.value.w, b.value.w);
        c := UseEffect(m, f, g, e.r, d.r, k1, a.value.w, b.value.w);
        After(j, k1, k, Eval(m, f, e.r, a.value.w), Eval(m, f, d.r, b.value.w));
        AfterWorld(j, k1, c, Effect(m, f, e.r, a.value.w), Effect(m, f, d.r, b.value.w));
      }
    }
  }

  lemma EachAnd(m: Sem, f: Env, g: bool, l: Expr, r: Expr, l2: Expr, r2: Expr)
    requires Lets(m, g) && Mirrors(m, f, g, l, l2) && Mirrors(m, f, g, r, r2)
    ensures Mirrors(m, f, g, EAnd(l, r), EAnd(l2, r2))
  {
    hide Eval, Effect, EvalArg, Mirrors, Lets, Laws, LikeWorld, Like, Grows, Agrees;
    var e, d := EAnd(l, r), EAnd(l2, r2);
    forall j, u, w | Fits(g, j, u, w)
      ensures Agrees(m, f, j, e, d, u, w)
    {
      ShortForm(m, f, e, u);
      ShortForm(m, f, d, w);
      if f.shortcuts {
        var k, c := ShortLike(m, f, g, e, d, j, u, w);
        Combine(m, f, j, e, d, u, w, k, c);
      } else {
        var k := UseBoth(m, f, g, l, r, l2, r2, j, u, w);
        var a, b := Eval(m, f, l, u), Eval(m, f, l2, w);
        if a.Some? && Eval(m, f, r, a.value.w).Some? {
          Allowed(m, g, k);
          BinaryLike(m, k, Rel(LogicalAnd), a.value.v, b.value.v,
            Eval(m, f, r, a.value.w).value.v, Eval(m, f, r2, b.value.w).value.v);
        }
        Combine(m, f, j, e, d, u, w, k, k);
      }
    }
    Conclude(m, f, g, e, d);
  }

  lemma EachOr(m: Sem, f: Env, g: bool, l: Expr, r: Expr, l2: Expr, r2: Expr)
    requires Lets(m, g) && Mirrors(m, f, g, l, l2) && Mirrors(m, f, g, r, r2)
    ensures Mirrors(m, f, g, EOr(l, r), EOr(l2, r2))
  {
    hide Eval, Effect, EvalArg, Mirrors, Lets, Laws, LikeWorld, Like, Grows, Agrees;
    var e, d := EOr(l, r), EOr(l2, r2);
    forall j, u, w | Fits(g, j, u, w)
      ensures Agrees(m, f, j, e, d, u, w)
    {
      ShortForm(m, f, e, u);
      ShortForm(m, f, d, w);
      if f.shortcuts {
        var k, c := ShortLike(m, f, g, e, d, j, u, w);
        Combine(m, f, j, e, d, u, w, k, c);
      } else {
        var k := UseBoth(m, f, g, l, r, l2, r2, j, u, w);
        var a, b := Eval(m, f, l, u), Eval(m, f, l2, w);
        if a.Some? && Eval(m, f, r, a.value.w).Some? {
          Allowed(m, g, k);
          BinaryLike(m, k, Rel(LogicalOr), a.value.v, b.value.v,
            Eval(m, f, r, a.value.w).value.v, Eval(m, f, r2, b.value.w).value.v);
        }
        Combine(m, f, j, e, d, u, w, k, k);
      }
    }
    Conclude(m, f, g, e, d);
  }

  /** Only arrays may correspond without being equal. */
  lemma TruthLike(k: Ids, a: Value, b: Value)
    requires Like(k, a, b)
    ensures !a.Array? ==> a == b
    ensures Truth(a) == Truth(b)
  {
  }

  lemma EachNot(m: Sem, f: Env, g: bool, x: Expr, x2: Expr)
    requires Lets(m, g) && Mirrors(m, f, g, x, x2)
    ensures Mirrors(m, f, g, ENot(x), ENot(x2))
  {
    hide Eval, Effect, EvalArg, Mirrors, Lets, Laws, LikeWorld, Like, Grows, Agrees;
    var e, d := ENot(x), ENot(x2);
    forall j, u, w | Fits(g, j, u, w)
      ensures Agrees(m, f, j, e, d, u, w)
    {
      OperatorForm(m, f, e, u);
      OperatorForm(m, f, d, w);
      var k := UseValue(m, f, g, x, x2, j, u, w);
      var c := UseEffect(m, f, g, x, x2, j, u, w);
      if Eval(m, f, x, u).Some? {
        Allowed(m, g, k);
        UnaryLike(m, k, Not, Eval(m, f, x, u).value.v, Eval(m, f, x2, w).value.v);
      }
      Combine(m, f, j, e, d, u, w, k, if f.harbour then c else k);
    }
    Conclude(m, f, g, e, d);
  }

  lemma EachNegate(m: Sem, f: Env, g: bool, x: Expr, x2: Expr)
    requires Lets(m, g) && Mirrors(m, f, g, x, x2)
    ensures Mirrors(m, f, g, ENegate(x), ENegate(x2))
  {
    hide Eval, Effect, EvalArg, Mirrors, Lets, Laws, LikeWorld, Like, Grows, Agrees;
    var e, d := ENegate(x), ENegate(x2);
    forall j, u, w | Fits(g, j, u, w)
      ensures Agrees(m, f, j, e, d, u, w)
    {
      OperatorForm(m, f, e, u);
      OperatorForm(m, f, d, w);
      var k := UseValue(m, f, g, x, x2, j, u, w);
      var c := UseEffect(m, f, g, x, x2, j, u, w);
      if Eval(m, f, x, u).Some? {
        Allowed(m, g, k);
        UnaryLike(m, k, Negate, Eval(m, f, x, u).value.v, Eval(m, f, x2, w).value.v);
      }
      Combine(m, f, j, e, d, u, w, k, if f.harbour then c else k);
    }
    Conclude(m, f, g, e, d);
  }

  lemma Branch(m: Sem, f: Env, g: bool, e: Expr, d: Expr, x: Expr, x2: Expr, j: Ids, k: Ids, u: World, w: World,
      u1: World, w1: World)
    requires Mirrors(m, f, g, x, x2) && Fits(g, k, u1, w1) && Grows(j, k)
    requires Eval(m, f, e, u) == Eval(m, f, x, u1) && Effect(m, f, e, u) == Effect(m, f, x, u1)
    requires EvalArg(m, f, e, u) == EvalArg(m, f, x, u1)
    requires Eval(m, f, d, w) == Eval(m, f, x2, w1) && Effect(m, f, d, w) == Effect(m, f, x2, w1)
    requires EvalArg(m, f, d, w) == EvalArg(m, f, x2, w1)
    ensures Agrees(m, f, j, e, d, u, w)
  {
    hide Eval, Effect, EvalArg, Mirrors, Fits, Agrees, ValueLike, WorldLike, ItemLike, Grows;
    var a := UseValue(m, f, g, x, x2, k, u1, w1);
    var b := UseEffect(m, f, g, x, x2, k, u1, w1);
    var c := UseArg(m, f, g, x, x2, k, u1, w1);
    After(j, k, a, Eval(m, f, x, u1), Eval(m, f, x2, w1));
    AfterWorld(j, k, b, Effect(m, f, x, u1), Effect(m, f, x2, w1));
    AfterItem(j, k, c, EvalArg(m, f, x, u1), EvalArg(m, f, x2, w1));
    Witness(m, f, j, e, d, u, w, a, b, c);
  }

  lemma EachIif(m: Sem, f: Env, g: bool, c: Expr, t: Expr, n: Expr, c2: Expr, t2: Expr, n2: Expr)
    requires Lets(m, g) && Mirrors(m, f, g, c, c2) && Mirrors(m, f, g, t, t2) && Mirrors(m, f, g, n, n2)
    ensures Mirrors(m, f, g, EIif(c, t, n), EIif(c2, t2, n2))
  {
    hide Eval, Effect, EvalArg, Mirrors, Lets, Laws, LikeWorld, Like, Grows, Agrees;
    var e, d := EIif(c, t, n), EIif(c2, t2, n2);
    forall j, u, w | Fits(g, j, u, w)
      ensures Agrees(m, f, j, e, d, u, w)
    {
      ChoiceForm(m, f, e, u);
      ChoiceForm(m, f, d, w);
      var k := UseValue(m, f, g, c, c2, j, u, w);
      var a, b := Eval(m, f, c, u), Eval(m, f, c2, w);
      assert a.Some? ==> Truth(a.value.v) == Truth(b.value.v) by {
        if a.Some? { TruthLike(k, a.value.v, b.value.v); }
      }
      if a.Some? && Truth(a.value.v).Some? {
        Branch(m, f, g, e, d, if a.value.v.b then t else n, if a.value.v.b then t2 else n2, j, k,
          u, w, a.value.w, b.value.w);
      } else {
        Witness(m, f, j, e, d, u, w, j, j, j);
      }
    }
    Conclude(m, f, g, e, d);
  }

  // ----- lists -----

  lemma {:induction false} ArgsLike(m: Sem, f: Env, g: bool, es: Exprs, ds: Exprs, j: Ids, u: World,
      w: World) returns (k: Ids)
    requires AllMirror(m, f, g, es, ds) && Fits(g, j, u, w)
    ensures AllLike(j, EvalArgs(m, f, es, u), EvalArgs(m, f, ds, w), k)
    decreases es
  {
    hide EvalArg, Mirrors, LikeWorld, Grows, Fits, LikeItem;
    k := j;
    GrowsItself(j);
    if es.NoMore? {
      assert LikeWorld(j, u, w) by { assert Fits(g, j, u, w); FitsLike(g, j, u, w); }
    } else {
      var k1 := UseArg(m, f, g, es.head, ds.head, j, u, w);
      var a, b := EvalArg(m, f, es.head, u), EvalArg(m, f, ds.head, w);
      if a.Some? {
        k := ArgsLike(m, f, g, es.tail, ds.tail, k1, a.value.w, b.value.w);
        if EvalArgs(m, f, es.tail, a.value.w).Some? {
          GrowsThen(j, k1, k);
          CarryItem(k1, k, a.value.item, b.value.item);
        }
      }
    }
  }

  lemma FitsLike(g: bool, j: Ids, u: World, w: World)
    requires Fits(g, j, u, w)
    ensures LikeWorld(j, u, w) && j.Renamed? == g
  {
  }

  lemma {:induction false} LastLike(m: Sem, f: Env, g: bool, es: Exprs, ds: Exprs, j: Ids, u: World,
      w: World) returns (k: Ids)
    requires AllMirror(m, f, g, es, ds) && Fits(g, j, u, w)
    ensures ValueLike(j, EvalLast(m, f, es, u), EvalLast(m, f, ds, w), k)
    decreases es
  {
    hide Eval, Effect, Mirrors, LikeWorld, Like, Grows, Fits;
    k := j;
    if es.More? && es.tail.NoMore? {
      k := UseValue(m, f, g, es.head, ds.head, j, u, w);
    } else if es.More? {
      var k1 := UseEffect(m, f, g, es.head, ds.head, j, u, w);
      var a, b := Effect(m, f, es.head, u), Effect(m, f, ds.head, w);
      if a.Some? {
        k := LastLike(m, f, g, es.tail, ds.tail, k1, a.value, b.value);
        After(j, k1, k, EvalLast(m, f, es.tail, a.value), EvalLast(m, f, ds.tail, b.value));
      }
    }
  }

  lemma {:induction false} EffectsLike(m: Sem, f: Env, g: bool, es: Exprs, ds: Exprs, j: Ids, u: World,
      w: World) returns (k: Ids)
    requires AllMirror(m, f, g, es, ds) && Fits(g, j, u, w)
    ensures WorldLike(j, EffectAll(m, f, es, u), EffectAll(m, f, ds, w), k)
    decreases es
  {
    hide Effect, Mirrors, LikeWorld, Grows, Fits;
    k := j;
    GrowsItself(j);
    FitsLike(g, j, u, w);
    if es.More? {
      var k1 := UseEffect(m, f, g, es.head, ds.head, j, u, w);
      var a, b := Effect(m, f, es.head, u), Effect(m, f, ds.head, w);
      if a.Some? {
        k := EffectsLike(m, f, g, es.tail, ds.tail, k1, a.value, b.value);
        AfterWorld(j, k1, k, EffectAll(m, f, es.tail, a.value), EffectAll(m, f, ds.tail, b.value));
      }
    }
  }

  lemma EachList(m: Sem, f: Env, g: bool, es: Exprs, ds: Exprs)
    requires Lets(m, g) && AllMirror(m, f, g, es, ds)
    ensures Mirrors(m, f, g, EList(es), EList(ds))
  {
    hide Eval, Effect, EvalArg, Mirrors, Lets, Laws, LikeWorld, Like, Grows, EvalArgs, EvalLast, EffectAll,
        LikeItems, LikeValues, Agrees;
    var e, d := EList(es), EList(ds);
    forall j, u, w | Fits(g, j, u, w)
      ensures Agrees(m, f, j, e, d, u, w)
    {
      ListForm(m, f, e, u);
      ListForm(m, f, d, w);
      var k := LastLike(m, f, g, es, ds, j, u, w);
      var c := EffectsLike(m, f, g, es, ds, j, u, w);
      Combine(m, f, j, e, d, u, w, k, c);
    }
    Conclude(m, f, g, e, d);
  }

  lemma EachArray(m: Sem, f: Env, g: bool, es: Exprs, ds: Exprs)
    requires Lets(m, g) && AllMirror(m, f, g, es, ds)
    ensures Mirrors(m, f, g, EArray(es), EArray(ds))
  {
    hide Eval, Effect, EvalArg, Mirrors, Lets, Laws, LikeWorld, Like, Grows, EvalArgs, EvalLast, EffectAll,
        LikeItems, LikeValues, PlainValues, Fits, Agrees;
    var e, d := EArray(es), EArray(ds);
    forall j, u, w | Fits(g, j, u, w)
      ensures Agrees(m, f, j, e, d, u, w)
    {
      ListForm(m, f, e, u);
      ListForm(m, f, d, w);
      var k := ArgsLike(m, f, g, es, ds, j, u, w);
      var c := EffectsLike(m, f, g, es, ds, j, u, w);
      var a, b := EvalArgs(m, f, es, u), EvalArgs(m, f, ds, w);
      if a.Some? {
        PlainLike(k, a.value.items, b.value.items);
        var x, y := PlainValues(a.value.items), PlainValues(b.value.items);
        if x.Some? {
          var k1 := k;
          k := NewLike(k1, a.value.w, b.value.w, x.value, y.value);
          GrowsThen(j, k1, k);
        }
      }
      Combine(m, f, j, e, d, u, w, k, c);
    }
    Conclude(m, f, g, e, d);
  }

  lemma EachCall(m: Sem, f: Env, g: bool, h: U16, es: Exprs, ds: Exprs)
    requires Lets(m, g) && AllMirror(m, f, g, es, ds)
    ensures Mirrors(m, f, g, ECall(h, es), ECall(h, ds))
  {
    hide Eval, Effect, EvalArg, Mirrors, Lets, Laws, LikeWorld, Like, Grows, EvalArgs, EvalLast, EffectAll,
        LikeItems, LikeValues, DoCall, Agrees;
    var e, d := ECall(h, es), ECall(h, ds);
    forall j, u, w | Fits(g, j, u, w)
      ensures Agrees(m, f, j, e, d, u, w)
    {
      ListForm(m, f, e, u);
      ListForm(m, f, d, w);
      var k := ArgsLike(m, f, g, es, ds, j, u, w);
      var a, b := EvalArgs(m, f, es, u), EvalArgs(m, f, ds, w);
      if a.Some? {
        var k1 := k;
        FitsGrown(g, j, k1, u, w, a.value.w, b.value.w);
        Allowed(m, g, k1);
        k := CallLike(m, k1, h, a.value.items, b.value.items, a.value.w, b.value.w);
        After(j, k1, k, DoCall(m, h, a.value.items, a.value.w), DoCall(m, h, b.value.items, b.value.w));
      }
      CombineSame(m, f, j, e, d, u, w, k);
    }
    Conclude(m, f, g, e, d);
  }

  // ----- messages and work areas -----

  lemma EachField(m: Sem, f: Env, g: bool, o: Expr, o2: Expr, msg: U16)
    requires Lets(m, g) && Mirrors(m, f, g, o, o2)
    ensures Mirrors(m, f, g, EField(o, msg), EField(o2, msg))
  {
    hide Eval, Effect, EvalArg, Mirrors, Lets, Laws, LikeWorld, Like, Grows, DoSend, Agrees;
    var e, d := EField(o, msg), EField(o2, msg);
    forall j, u, w | Fits(g, j, u, w)
      ensures Agrees(m, f, j, e, d, u, w)
    {
      MessageForm(m, f, e, u);
      MessageForm(m, f, d, w);
      var k := UseValue(m, f, g, o, o2, j, u, w);
      var a, b := Eval(m, f, o, u), Eval(m, f, o2, w);
      if a.Some? {
        var k1 := k;
        Allowed(m, g, k1);
        k := SendLike(m, k1, a.value.v, b.value.v, msg, [], [], a.value.w, b.value.w);
        After(j, k1, k, DoSend(m, a.value.v, msg, [], a.value.w), DoSend(m, b.value.v, msg, [], b.value.w));
      }
      CombineSame(m, f, j, e, d, u, w, k);
    }
    Conclude(m, f, g, e, d);
  }

  lemma EachMethod(m: Sem, f: Env, g: bool, o: Expr, o2: Expr, msg: U16, es: Exprs, ds: Exprs)
    requires Lets(m, g) && Mirrors(m, f, g, o, o2) && AllMirror(m, f, g, es, ds)
    ensures Mirrors(m, f, g, EMethod(o, msg, es), EMethod(o2, msg, ds))
  {
    hide Eval, Effect, EvalArg, Mirrors, Lets, Laws, LikeWorld, Like, Grows, EvalArgs, EvalLast, EffectAll,
        LikeItems, LikeValues, DoSend, Agrees;
    var e, d := EMethod(o, msg, es), EMethod(o2, msg, ds);
    forall j, u, w | Fits(g, j, u, w)
      ensures Agrees(m, f, j, e, d, u, w)
    {
      MessageForm(m, f, e, u);
      MessageForm(m, f, d, w);
      var k := UseValue(m, f, g, o, o2, j, u, w);
      var a, b := Eval(m, f, o, u), Eval(m, f, o2, w);
      if a.Some? {
        var k1 := k;
        var k2 := ArgsLike(m, f, g, es, ds, k1, a.value.w, b.value.w);
        var x, y := EvalArgs(m, f, es, a.value.w), EvalArgs(m, f, ds, b.value.w);
        if x.Some? {
          FitsGrown(g, k1, k2, a.value.w, b.value.w, x.value.w, y.value.w);
          Allowed(m, g, k2);
          Carry(k1, k2, a.value.v, b.value.v);
          GrowsThen(j, k1, k2);
          k := SendLike(m, k2, a.value.v, b.value.v, msg, x.value.items, y.value.items, x.value.w, y.value.w);
          After(j, k2, k, DoSend(m, a.value.v, msg, x.value.items, x.value.w),
            DoSend(m, b.value.v, msg, y.value.items, y.value.w));
        }
      }
      CombineSame(m, f, j, e, d, u, w, k);
    }
    Conclude(m, f, g, e, d);
  }

  lemma EachAliased(m: Sem, f: Env, g: bool, a: Expr, b: Expr, a2: Expr, b2: Expr)
    requires Lets(m, g) && Mirrors(m, f, g, a, a2) && Mirrors(m, f, g, b, b2)
    ensures Mirrors(m, f, g, EAliased(a, b), EAliased(a2, b2))
  {
    hide Eval, Effect, EvalArg, Mirrors, Lets, Laws, LikeWorld, Like, Grows, SelectArea, Agrees;
    var e, d := EAliased(a, b), EAliased(a2, b2);
    forall j, u, w | Fits(g, j, u, w)
      ensures Agrees(m, f, j, e, d, u, w)
    {
      MessageForm(m, f, e, u);
      MessageForm(m, f, d, w);
      AreaLike(j, u, w, u.area) by { FitsLike(g, j, u, w); }
      var k := UseValue(m, f, g, a, a2, j, u, w);
      var c := k;
      var x, y := Eval(m, f, a, u), Eval(m, f, a2, w);
      if x.Some? {
        var k1 := k;
        Allowed(m, g, k1);
        AliasLike(m, k1, x.value.v, y.value.v, x.value.w, y.value.w);
        var p, q := SelectArea(m, x.value.v, x.value.w), SelectArea(m, y.value.v, y.value.w);
        if p.Some? {
          FitsGrown(g, j, k1, u, w, p.value, q.value);
          k := UseValue(m, f, g, b, b2, k1, p.value, q.value);
          c := UseEffect(m, f, g, b, b2, k1, p.value, q.value);
          After(j, k1, k, Eval(m, f, b, p.value), Eval(m, f, b2, q.value));
          AfterWorld(j, k1, c, Effect(m, f, b, p.value), Effect(m, f, b2, q.value));
          if Eval(m, f, b, p.value).Some? {
            AreaLike(k, Eval(m, f, b, p.value).value.w, Eval(m, f, b2, q.value).value.w, u.area);
          }
          if Effect(m, f, b, p.value).Some? {
            AreaLike(c, Effect(m, f, b, p.value).value, Effect(m, f, b2, q.value).value, u.area);
          }
        }
      }
      Combine(m, f, j, e, d, u, w, k, c);
    }
    Conclude(m, f, g, e, d);
  }

  // ----- left-hand sides -----

  predicate HasPlace(l: Expr)
  {
    l.EVar? || l.EIndex? || l.EField? || l.EMethod? || l.ERef? || l.EIif?
  }

  /** The same kind of left-hand side with operands replaced. */
  ghost predicate SameShape(m: Sem, f: Env, g: bool, l: Expr, d: Expr)
  {
    match (l, d)
    case (EVar(x), EVar(y)) => x == y
    case (EIndex(a, i), EIndex(b, n)) =>
      && Mirrors(m, f, g, a, b) && Mirrors(m, f, g, i, n)
      && ByRef(f, a) == ByRef(f, b) && (ByRef(f, a) ==> SameShape(m, f, g, a, b))
    case (EField(o, msg), EField(o2, msg2)) => msg == msg2 && Mirrors(m, f, g, o, o2)
    case (EMethod(o, msg, _), EMethod(o2, msg2, _)) => msg == msg2 && Mirrors(m, f, g, o, o2)
    case (ERef(t), ERef(t2)) => SameShape(m, f, g, t, t2)
    case (EIif(c, t, n), EIif(c2, t2, n2)) =>
      Mirrors(m, f, g, c, c2) && SameShape(m, f, g, t, t2) && SameShape(m, f, g, n, n2)
    case _ => !HasPlace(l)
  }

  lemma {:induction false} PlaceMirrors(m: Sem, f: Env, g: bool, l: Expr, d: Expr, j: Ids, u: World,
      w: World) returns (k: Ids)
    requires Lets(m, g) && SameShape(m, f, g, l, d) && Fits(g, j, u, w)
    ensures PlaceLike(j, Place(m, f, l, u), Place(m, f, d, w), k)
    decreases l, 1
  {
    hide Mirrors, Eval, Effect, EvalArg, Base, Lets, Fits, LikeWorld, Like, Grows, Followed, ElementLoc;
    k := j;
    GrowsItself(j);
    FitsLike(g, j, u, w);
    match l
    case EVar(x) => if HasCell(x) { GetLike(j, u, w, CellOf(x)); }
    case EIndex(_, _) => k := ElementMirrors(m, f, g, l, d, j, u, w);
    case EField(o, _) => k := UseValue(m, f, g, o, d.obj, j, u, w);
    case EMethod(o, _, _) => k := UseValue(m, f, g, o, d.obj, j, u, w);
    case ERef(t) => k := PlaceMirrors(m, f, g, t, d.target, j, u, w);
    case EIif(c, t, n) =>
      k := UseValue(m, f, g, c, d.cond, j, u, w);
      var a, b := Eval(m, f, c, u), Eval(m, f, d.cond, w);
      if a.Some? {
        TruthLike(k, a.value.v, b.value.v);
        if Truth(a.value.v).Some? {
          var k1 := k;
          var x, y := if a.value.v.b then t else n, if a.value.v.b then d.yes else d.no;
          k := PlaceMirrors(m, f, g, x, y, k1, a.value.w, b.value.w);
          AfterPlace(j, k1, k, Place(m, f, x, a.value.w), Place(m, f, y, b.value.w));
        }
      }
    case _ =>
  }

  lemma AfterPlace(j: Ids, k: Ids, l: Ids, r: Option<Placed>, s: Option<Placed>)
    requires Grows(j, k) && PlaceLike(k, r, s, l)
    ensures PlaceLike(j, r, s, l)
  {
    hide LikeWorld, LikeLoc, Grows;
    if r.Some? {
      GrowsThen(j, k, l);
    }
  }

  lemma {:induction false} ElementMirrors(m: Sem, f: Env, g: bool, l: Expr, d: Expr, j: Ids, u: World,
      w: World) returns (k: Ids)
    requires Lets(m, g) && l.EIndex? && SameShape(m, f, g, l, d) && Fits(g, j, u, w)
    ensures PlaceLike(j, Place(m, f, l, u), Place(m, f, d, w), k)
    decreases l, 0
  {
    hide Mirrors, Eval, Effect, EvalArg, Base, Lets, Laws, Fits, LikeWorld, Like, LikeItem, LikeLoc, Grows, Followed,
        ElementLoc;
    k := BaseMirrors(m, f, g, l.base, d.base, j, u, w);
    var a, b := Base(m, f, l.base, u), Base(m, f, d.base, w);
    if a.Some? {
      var k1 := k;
      FitsGrown(g, j, k1, u, w, a.value.w, b.value.w);
      k := UseValue(m, f, g, l.index, d.index, k1, a.value.w, b.value.w);
      var x, y := Eval(m, f, l.index, a.value.w), Eval(m, f, d.index, b.value.w);
      if x.Some? {
        var k2 := k;
        CarryItem(k1, k2, a.value.item, b.value.item);
        GrowsThen(j, k1, k2);
        FitsLike(g, k2, x.value.w, y.value.w);
        Allowed(m, g, k2);
        k := FollowedLike(m, k2, a.value.item, b.value.item, x.value.w, y.value.w);
        var p, q := Followed(m, a.value.item, x.value.w), Followed(m, b.value.item, y.value.w);
        if p.Some? {
          Carry(k2, k, x.value.v, y.value.v);
          GrowsThen(j, k2, k);
          ElementLocLike(k, p.value.w, q.value.w, p.value.v, q.value.v, x.value.v, y.value.v);
        }
      }
    }
  }

  lemma {:induction false} BaseMirrors(m: Sem, f: Env, g: bool, a: Expr, d: Expr, j: Ids, u: World,
      w: World) returns (k: Ids)
    requires Lets(m, g) && Fits(g, j, u, w) && Mirrors(m, f, g, a, d)
    requires ByRef(f, a) == ByRef(f, d) && (ByRef(f, a) ==> SameShape(m, f, g, a, d))
    ensures ItemLike(j, Base(m, f, a, u), Base(m, f, d, w), k)
    decreases a, 2
  {
    hide Mirrors, Eval, Effect, EvalArg, Place, Lets, Fits, LikeWorld, Like, LikeLoc, Grows;
    if ByRef(f, a) {
      k := PlaceMirrors(m, f, g, a, d, j, u, w);
    } else {
      k := UseValue(m, f, g, a, d, j, u, w);
    }
  }

  lemma ElementAssignMirrors(m: Sem, f: Env, g: bool, l: Expr, d: Expr, a: Value, b: Value, j: Ids, u: World, w: World)
    returns (k: Ids)
    requires Lets(m, g) && l.EIndex? && SameShape(m, f, g, l, d) && Fits(g, j, u, w) && Like(j, a, b)
    ensures WorldLike(j, Assign(m, f, l, a, u), Assign(m, f, d, b, w), k)
  {
    hide Mirrors, Eval, Effect, EvalArg, Place, Lets, Laws, Fits, LikeWorld, Like, LikeLoc, Grows, Store;
    k := PlaceMirrors(m, f, g, l, d, j, u, w);
    var p, q := Place(m, f, l, u), Place(m, f, d, w);
    if p.Some? {
      var k1 := k;
      FitsGrown(g, j, k1, u, w, p.value.w, q.value.w);
      AllowedAt(m, g, k1, p.value.w, q.value.w);
      Carry(j, k1, a, b);
      k := StoreLike(m, k1, p.value.loc, q.value.loc, a, b, p.value.w, q.value.w);
      AfterWorld(j, k1, k, Store(m, p.value.loc, a, p.value.w), Store(m, q.value.loc, b, q.value.w));
    }
  }

  lemma FieldAssignMirrors(m: Sem, f: Env, g: bool, l: Expr, d: Expr, a: Value, b: Value, j: Ids, u: World, w: World)
    returns (k: Ids)
    requires Lets(m, g) && l.EField? && SameShape(m, f, g, l, d) && Fits(g, j, u, w) && Like(j, a, b)
    ensures WorldLike(j, Assign(m, f, l, a, u), Assign(m, f, d, b, w), k)
  {
    hide Mirrors, Eval, Effect, EvalArg, Lets, Laws, Fits, LikeWorld, Like, Grows, DoSend;
    k := UseValue(m, f, g, l.obj, d.obj, j, u, w);
    var x, y := Eval(m, f, l.obj, u), Eval(m, f, d.obj, w);
    if x.Some? {
      var k1 := k;
      Carry(j, k1, a, b);
      k := PutLike(m, f, g, k1, x.value.v, y.value.v, l.msg, a, b, x.value.w, y.value.w);
      After(j, k1, k, PutField(m, f, x.value.v, l.msg, a, x.value.w), PutField(m, f, y.value.v, l.msg, b, y.value.w));
    }
  }

  lemma {:induction false} AssignMirrors(m: Sem, f: Env, g: bool, l: Expr, d: Expr, a: Value, b: Value, j: Ids,
      u: World, w: World)
    returns (k: Ids)
    requires Lets(m, g) && SameShape(m, f, g, l, d) && Fits(g, j, u, w) && Like(j, a, b)
    ensures WorldLike(j, Assign(m, f, l, a, u), Assign(m, f, d, b, w), k)
    decreases l
  {
    hide Mirrors, Eval, Effect, EvalArg, Place, Lets, Laws, Fits, LikeWorld, Like, Grows, Store, DoSend, WriteVar;
    k := j;
    GrowsItself(j);
    FitsLike(g, j, u, w);
    match l
    case EVar(x) => WriteLike(j, u, w, x, a, b);
    case EIndex(_, _) => k := ElementAssignMirrors(m, f, g, l, d, a, b, j, u, w);
    case EField(_, _) => k := FieldAssignMirrors(m, f, g, l, d, a, b, j, u, w);
    case EIif(c, t, n) =>
      k := UseValue(m, f, g, c, d.cond, j, u, w);
      var x, y := Eval(m, f, c, u), Eval(m, f, d.cond, w);
      if x.Some? {
        TruthLike(k, x.value.v, y.value.v);
        if Truth(x.value.v).Some? {
          var k1 := k;
          Carry(j, k1, a, b);
          var p, q := if x.value.v.b then t else n, if x.value.v.b then d.yes else d.no;
          k := AssignMirrors(m, f, g, p, q, a, b, k1, x.value.w, y.value.w);
          AfterWorld(j, k1, k, Assign(m, f, p, a, x.value.w), Assign(m, f, q, b, y.value.w));
        }
      }
    case _ =>
  }

  lemma AllowedAt(m: Sem, g: bool, j: Ids, u: World, w: World)
    requires Lets(m, g) && Fits(g, j, u, w)
    ensures Laws(m, j) && LikeWorld(j, u, w)
  {
    hide LikeWorld, Lets, Laws;
    Allowed(m, g, j);
  }

  lemma PutLike(m: Sem, f: Env, g: bool, j: Ids, o: Value, p: Value, msg: U16, a: Value, b: Value, u: World,
      w: World) returns (k: Ids)
    requires Lets(m, g) && Fits(g, j, u, w) && Like(j, o, p) && Like(j, a, b)
    ensures ValueLike(j, PutField(m, f, o, msg, a, u), PutField(m, f, p, msg, b, w), k)
    ensures ValueFits(g, PutField(m, f, o, msg, a, u), PutField(m, f, p, msg, b, w), k)
  {
    hide Lets, Laws, LikeWorld, Like, Fits, DoSend;
    AllowedAt(m, g, j, u, w);
    OneLike(j, a, b);
    k := SendLike(m, j, o, p, f.setter(msg), [Val(a)], [Val(b)], u, w);
    var r := PutField(m, f, o, msg, a, u);
    if r.Some? {
      FitsGrown(g, j, k, u, w, r.value.w, PutField(m, f, p, msg, b, w).value.w);
    }
  }

  lemma GetFieldLike(m: Sem, g: bool, j: Ids, o: Value, p: Value, msg: U16, u: World, w: World) returns (k: Ids)
    requires Lets(m, g) && Fits(g, j, u, w) && Like(j, o, p)
    ensures ValueLike(j, GetField(m, o, msg, u), GetField(m, p, msg, w), k)
    ensures ValueFits(g, GetField(m, o, msg, u), GetField(m, p, msg, w), k)
  {
    hide Lets, Laws, LikeWorld, Like, Fits, DoSend;
    AllowedAt(m, g, j, u, w);
    k := SendLike(m, j, o, p, msg, [], [], u, w);
    var r := GetField(m, o, msg, u);
    if r.Some? {
      FitsGrown(g, j, k, u, w, r.value.w, GetField(m, p, msg, w).value.w);
    }
  }

  // ----- assignments -----

  lemma EachAssign(m: Sem, f: Env, g: bool, l: Expr, r: Expr, l2: Expr, r2: Expr)
    requires Lets(m, g) && SameShape(m, f, g, l, l2) && l.EField? == l2.EField? && Mirrors(m, f, g, r, r2)
    ensures Mirrors(m, f, g, EAssign(l, r), EAssign(l2, r2))
  {
    hide Eval, Effect, EvalArg, Mirrors, Lets, Laws, LikeWorld, Like, Grows, Agrees, Fits, PutField, Assign;
    var e, d := EAssign(l, r), EAssign(l2, r2);
    forall j, u, w | Fits(g, j, u, w)
      ensures Agrees(m, f, j, e, d, u, w)
    {
      if l.EField? {
        AssignForm(m, f, e, u);
        AssignForm(m, f, d, w);
        var k := UseBoth(m, f, g, l.obj, r, l2.obj, r2, j, u, w);
        var a, b := Eval(m, f, l.obj, u), Eval(m, f, l2.obj, w);
        if a.Some? && Eval(m, f, r, a.value.w).Some? {
          var x, y := Eval(m, f, r, a.value.w).value, Eval(m, f, r2, b.value.w).value;
          var k1 := k;
          k := PutLike(m, f, g, k1, a.value.v, b.value.v, l.msg, x.v, y.v, x.w, y.w);
          After(j, k1, k, PutField(m, f, a.value.v, l.msg, x.v, x.w), PutField(m, f, b.value.v, l.msg, y.v, y.w));
        }
        CombineSame(m, f, j, e, d, u, w, k);
      } else {
        AssignForm(m, f, e, u);
        AssignForm(m, f, d, w);
        var k := UseValue(m, f, g, r, r2, j, u, w);
        var a, b := Eval(m, f, r, u), Eval(m, f, r2, w);
        if a.Some? {
          var k1 := k;
          k := AssignMirrors(m, f, g, l, l2, a.value.v, b.value.v, k1, a.value.w, b.value.w);
          if Assign(m, f, l, a.value.v, a.value.w).Some? {
            Carry(k1, k, a.value.v, b.value.v);
            GrowsThen(j, k1, k);
          }
        }
        CombineSame(m, f, j, e, d, u, w, k);
      }
    }
    Conclude(m, f, g, e, d);
  }

  ghost predicate FetchedLike(j: Ids, r: Option<Fetched>, s: Option<Fetched>, k: Ids)
  {
    r.Some? ==>
      && s.Some? && Grows(j, k) && Like(k, r.value.obj, s.value.obj) && Like(k, r.value.cur, s.value.cur)
      && LikeWorld(k, r.value.w, s.value.w)
  }

  lemma FetchMirrors(m: Sem, f: Env, g: bool, l: Expr, d: Expr, j: Ids, u: World, w: World) returns (k: Ids)
    requires Lets(m, g) && l.EField? && SameShape(m, f, g, l, d) && Fits(g, j, u, w)
    ensures FetchedLike(j, Fetch(m, f, l, u), Fetch(m, f, d, w), k)
    ensures Fetch(m, f, l, u).Some? ==> Fits(g, k, Fetch(m, f, l, u).value.w, Fetch(m, f, d, w).value.w)
  {
    hide Mirrors, Eval, Effect, EvalArg, Lets, Fits, LikeWorld, Like, Grows, GetField;
    k := UseValue(m, f, g, l.obj, d.obj, j, u, w);
    var a, b := Eval(m, f, l.obj, u), Eval(m, f, d.obj, w);
    if a.Some? {
      var k1, x, y := k, a, b;
      if !f.harbour {
        k := UseValue(m, f, g, l.obj, d.obj, k1, a.value.w, b.value.w);
        x, y := Eval(m, f, l.obj, a.value.w), Eval(m, f, d.obj, b.value.w);
        if x.Some? {
          Carry(k1, k, a.value.v, b.value.v);
          GrowsThen(j, k1, k);
        }
      }
      if x.Some? {
        var k2 := k;
        k := GetFieldLike(m, g, k2, x.value.v, y.value.v, l.msg, x.value.w, y.value.w);
        if GetField(m, x.value.v, l.msg, x.value.w).Some? {
          Carry(k2, k, a.value.v, b.value.v);
          GrowsThen(j, k2, k);
        }
      }
    }
  }

  /** Kinds of left-hand sides are told apart by their outermost form. */
  lemma SameKind(m: Sem, f: Env, g: bool, l: Expr, d: Expr)
    requires SameShape(m, f, g, l, d) && HasPlace(l)
    ensures HasPlace(d) && l.EField? == d.EField?
    ensures UpdatesInPlace(f, l) == UpdatesInPlace(f, d) && StepsInPlace(f, l) == StepsInPlace(f, d)
    ensures l.EField? ==> l.msg == d.msg
  {
    hide Mirrors;
  }

  lemma NoPlaceNoUpdate(m: Sem, f: Env, e: Expr, w: World)
    requires (e.EOpAssign? || e.EStep?) && !HasPlace(e.lhs)
    ensures e.EOpAssign? ==> EvalOpAssign(m, f, e, w) == None
    ensures e.EStep? ==> EvalPre(m, f, e, w) == None && EvalPost(m, f, e, w) == None
  {
    hide Eval;
  }

  /** An update through a place. */
  lemma InPlaceMirrors(m: Sem, f: Env, g: bool, op: ArithOp, l: Expr, r: Expr, l2: Expr, r2: Expr, j: Ids, u: World,
      w: World)
    returns (k: Ids)
    requires Lets(m, g) && SameShape(m, f, g, l, l2) && Mirrors(m, f, g, r, r2) && Fits(g, j, u, w)
    ensures var p, q := Place(m, f, l, u), Place(m, f, l2, w);
      p.Some? ==>
        && q.Some?
        && var x, y := Eval(m, f, r, p.value.w), Eval(m, f, r2, q.value.w);
           x.Some? ==> y.Some? && ValueLike(j, Update(m, op, p.value.loc, x.value.v, x.value.w),
               Update(m, op, q.value.loc, y.value.v, y.value.w), k)
  {
    hide Mirrors, Eval, Place, Lets, Laws, Fits, LikeWorld, Like, LikeLoc, Grows, Update;
    k := PlaceMirrors(m, f, g, l, l2, j, u, w);
    var p, q := Place(m, f, l, u), Place(m, f, l2, w);
    if p.Some? {
      var k1 := k;
      FitsGrown(g, j, k1, u, w, p.value.w, q.value.w);
      k := UseValue(m, f, g, r, r2, k1, p.value.w, q.value.w);
      var x, y := Eval(m, f, r, p.value.w), Eval(m, f, r2, q.value.w);
      if x.Some? {
        var k2 := k;
        CarryLoc(k1, k2, p.value.loc, q.value.loc);
        GrowsThen(j, k1, k2);
        AllowedAt(m, g, k2, x.value.w, y.value.w);
        k := UpdateLike(m, k2, op, p.value.loc, q.value.loc, x.value.v, y.value.v, x.value.w, y.value.w);
        After(j, k2, k, Update(m, op, p.value.loc, x.value.v, x.value.w),
          Update(m, op, q.value.loc, y.value.v, y.value.w));
      }
    }
  }

  lemma UpdateMirrors(m: Sem, f: Env, g: bool, e: Expr, d: Expr, j: Ids, u: World, w: World) returns (k: Ids)
    requires Lets(m, g) && e.EOpAssign? && d.EOpAssign? && e.aop == d.aop && HasPlace(e.lhs)
    requires SameShape(m, f, g, e.lhs, d.lhs) && Mirrors(m, f, g, e.lhs, d.lhs) && Mirrors(m, f, g, e.rhs, d.rhs)
        && Fits(g, j, u, w)
    ensures ValueLike(j, EvalOpAssign(m, f, e, u), EvalOpAssign(m, f, d, w), k)
  {
    hide Mirrors, SameShape, HasPlace, Eval, Place, Lets, Laws, Fits, LikeWorld, Like, LikeLoc, Grows, Update, Fetch,
        Assign, PutField;
    SameKind(m, f, g, e.lhs, d.lhs);
    if UpdatesInPlace(f, e.lhs) {
      k := InPlaceMirrors(m, f, g, e.aop, e.lhs, e.rhs, d.lhs, d.rhs, j, u, w);
    } else if e.lhs.EField? {
      k := FieldMirrors(m, f, g, e, d, j, u, w);
    } else {
      k := UseBoth(m, f, g, e.lhs, e.rhs, d.lhs, d.rhs, j, u, w);
      var a, b := Eval(m, f, e.lhs, u), Eval(m, f, d.lhs, w);
      if a.Some? && Eval(m, f, e.rhs, a.value.w).Some? {
        var x, y := Eval(m, f, e.rhs, a.value.w).value, Eval(m, f, d.rhs, b.value.w).value;
        AllowedAt(m, g, k, x.w, y.w);
        BinaryLike(m, k, Arith(e.aop), a.value.v, b.value.v, x.v, y.v);
        k := BackMirrors(m, f, g, e.lhs, d.lhs, m.binary(Arith(e.aop), a.value.v, x.v),
          m.binary(Arith(e.aop), b.value.v, y.v), j, k, x.w, y.w);
      }
    }
  }

  function Assigned(m: Sem, f: Env, l: Expr, v: Option<Value>, w: World): Outcome
  {
    var x :- v;
    var w' :- Assign(m, f, l, x, w);
    Some(Result(x, w'))
  }

  /** The store of a new value, once it has been computed. */
  lemma BackMirrors(m: Sem, f: Env, g: bool, l: Expr, d: Expr, a: Option<Value>, b: Option<Value>, j: Ids, k: Ids,
      u: World, w: World)
    returns (n: Ids)
    requires Lets(m, g) && SameShape(m, f, g, l, d) && Fits(g, k, u, w) && Grows(j, k)
    requires a.Some? ==> b.Some? && Like(k, a.value, b.value)
    ensures ValueLike(j, Assigned(m, f, l, a, u), Assigned(m, f, d, b, w), n)
  {
    hide Mirrors, SameShape, Lets, Fits, LikeWorld, Like, Grows, Assign;
    n := k;
    if a.Some? {
      n := AssignMirrors(m, f, g, l, d, a.value, b.value, k, u, w);
      if Assign(m, f, l, a.value, u).Some? {
        Carry(k, n, a.value, b.value);
        GrowsThen(j, k, n);
      }
    }
  }

  lemma FieldMirrors(m: Sem, f: Env, g: bool, e: Expr, d: Expr, j: Ids, u: World, w: World) returns (k: Ids)
    requires Lets(m, g) && e.EOpAssign? && d.EOpAssign? && e.aop == d.aop && e.lhs.EField? && d.lhs.EField?
        && !UpdatesInPlace(f, e.lhs)
    requires SameShape(m, f, g, e.lhs, d.lhs) && Mirrors(m, f, g, e.rhs, d.rhs) && Fits(g, j, u, w)
    ensures ValueLike(j, EvalOpAssign(m, f, e, u), EvalOpAssign(m, f, d, w), k)
  {
    hide Mirrors, SameShape, HasPlace, Eval, Place, Lets, Laws, Fits, LikeWorld, Like, Grows, Update, Fetch, Assign,
        PutField;
    SameKind(m, f, g, e.lhs, d.lhs) by { assert HasPlace(e.lhs) by { FieldHasPlace(e.lhs); } }
    k := FetchMirrors(m, f, g, e.lhs, d.lhs, j, u, w);
    var p, q := Fetch(m, f, e.lhs, u), Fetch(m, f, d.lhs, w);
    if p.Some? {
      var k1 := k;
      k := UseValue(m, f, g, e.rhs, d.rhs, k1, p.value.w, q.value.w);
      var x, y := Eval(m, f, e.rhs, p.value.w), Eval(m, f, d.rhs, q.value.w);
      if x.Some? {
        var k2 := k;
        Carry(k1, k2, p.value.obj, q.value.obj);
        Carry(k1, k2, p.value.cur, q.value.cur);
        GrowsThen(j, k1, k2);
        AllowedAt(m, g, k2, x.value.w, y.value.w);
        BinaryLike(m, k2, Arith(e.aop), p.value.cur, q.value.cur, x.value.v, y.value.v);
        var s, t := m.binary(Arith(e.aop), p.value.cur, x.value.v), m.binary(Arith(e.aop), q.value.cur, y.value.v);
        if s.Some? {
          k := PutLike(m, f, g, k2, p.value.obj, q.value.obj, e.lhs.msg, s.value, t.value, x.value.w, y.value.w);
          After(j, k2, k, PutField(m, f, p.value.obj, e.lhs.msg, s.value, x.value.w),
            PutField(m, f, q.value.obj, e.lhs.msg, t.value, y.value.w));
        }
      }
    }
  }

  lemma FieldHasPlace(l: Expr)
    ensures l.EField? ==> HasPlace(l)
  {
  }

  // ----- ++ and -- -----

  lemma SteppedPlaceMirrors(m: Sem, f: Env, g: bool, inc: bool, l: Expr, d: Expr, j: Ids, u: World,
      w: World) returns (k: Ids, n: Ids)
    requires Lets(m, g) && SameShape(m, f, g, l, d) && Fits(g, j, u, w)
    ensures var p, q := Place(m, f, l, u), Place(m, f, d, w);
      p.Some? ==>
        && q.Some?
        && ValueLike(j, StepLoc(m, inc, p.value.loc, p.value.w), StepLoc(m, inc, q.value.loc, q.value.w), k)
        && var x, y := Deref(m, p.value.loc, p.value.w), Deref(m, q.value.loc, q.value.w);
           x.Some? ==>
             && y.Some?
             && var a, b := StepLoc(m, inc, p.value.loc, x.value.w), StepLoc(m, inc, q.value.loc, y.value.w);
                a.Some? ==>
                  && b.Some?
                  && Grows(j, n)
                  && Like(n, x.value.v, y.value.v)
                  && LikeWorld(n, a.value.w, b.value.w)
  {
    hide Mirrors, SameShape, Eval, Place, Lets, Laws, Fits, LikeWorld, Like, LikeLoc, Grows, StepLoc, Deref;
    k := PlaceMirrors(m, f, g, l, d, j, u, w);
    n := k;
    var p, q := Place(m, f, l, u), Place(m, f, d, w);
    if p.Some? {
      var k1 := k;
      FitsGrown(g, j, k1, u, w, p.value.w, q.value.w);
      AllowedAt(m, g, k1, p.value.w, q.value.w);
      k := StepLike(m, k1, inc, p.value.loc, q.value.loc, p.value.w, q.value.w);
      After(j, k1, k, StepLoc(m, inc, p.value.loc, p.value.w), StepLoc(m, inc, q.value.loc, q.value.w));
      var k2 := DerefLike(m, k1, p.value.loc, q.value.loc, p.value.w, q.value.w);
      var x, y := Deref(m, p.value.loc, p.value.w), Deref(m, q.value.loc, q.value.w);
      if x.Some? {
        CarryLoc(k1, k2, p.value.loc, q.value.loc);
        LawsGrow(m, k1, k2);
        n := StepLike(m, k2, inc, p.value.loc, q.value.loc, x.value.w, y.value.w);
        if StepLoc(m, inc, p.value.loc, x.value.w).Some? {
          Carry(k2, n, x.value.v, y.value.v);
          GrowsThen(j, k1, k2);
          GrowsThen(j, k2, n);
        }
      }
    }
  }

  lemma PreMirrors(m: Sem, f: Env, g: bool, e: Expr, d: Expr, j: Ids, u: World, w: World) returns (k: Ids)
    requires Lets(m, g) && e.EStep? && d.EStep? && e.inc == d.inc && HasPlace(e.lhs)
    requires SameShape(m, f, g, e.lhs, d.lhs) && Mirrors(m, f, g, e.lhs, d.lhs) && Fits(g, j, u, w)
    ensures ValueLike(j, EvalPre(m, f, e, u), EvalPre(m, f, d, w), k)
  {
    hide Mirrors, SameShape, HasPlace, Eval, Place, Lets, Laws, Fits, LikeWorld, Like, LikeLoc, Grows, StepLoc,
        Deref, Fetch, Assign, PutField;
    SameKind(m, f, g, e.lhs, d.lhs);
    if StepsInPlace(f, e.lhs) {
      var n;
      k, n := SteppedPlaceMirrors(m, f, g, e.inc, e.lhs, d.lhs, j, u, w);
    } else if e.lhs.EField? {
      k := SteppedFieldMirrors(m, f, g, e.inc, e.lhs, d.lhs, j, u, w);
    } else {
      k := UseValue(m, f, g, e.lhs, d.lhs, j, u, w);
      var a, b := Eval(m, f, e.lhs, u), Eval(m, f, d.lhs, w);
      if a.Some? {
        AllowedAt(m, g, k, a.value.w, b.value.w);
        UnaryLike(m, k, StepOp(e.inc), a.value.v, b.value.v);
        k := BackMirrors(m, f, g, e.lhs, d.lhs, m.unary(StepOp(e.inc), a.value.v), m.unary(StepOp(e.inc), b.value.v),
            j, k, a.value.w, b.value.w);
      }
    }
  }

  function PutStepped(m: Sem, f: Env, inc: bool, l: Expr, p: Fetched): Outcome
    requires l.EField?
  {
    var v :- m.unary(StepOp(inc), p.cur);
    PutField(m, f, p.obj, l.msg, v, p.w)
  }

  lemma SteppedFieldMirrors(m: Sem, f: Env, g: bool, inc: bool, l: Expr, d: Expr, j: Ids, u: World,
      w: World) returns (k: Ids)
    requires Lets(m, g) && l.EField? && d.EField? && SameShape(m, f, g, l, d) && Fits(g, j, u, w)
    ensures var p, q := Fetch(m, f, l, u), Fetch(m, f, d, w);
      p.Some? ==>
        && q.Some? && ValueLike(j, PutStepped(m, f, inc, l, p.value), PutStepped(m, f, inc, d, q.value), k)
        && (PutStepped(m, f, inc, l, p.value).Some? ==> Like(k, p.value.cur, q.value.cur))
  {
    hide Mirrors, SameShape, HasPlace, Lets, Laws, Fits, LikeWorld, Like, Grows, Fetch, PutField;
    FieldHasPlace(l);
    SameKind(m, f, g, l, d);
    k := FetchMirrors(m, f, g, l, d, j, u, w);
    var p, q := Fetch(m, f, l, u), Fetch(m, f, d, w);
    if p.Some? {
      var k1 := k;
      AllowedAt(m, g, k1, p.value.w, q.value.w);
      UnaryLike(m, k1, StepOp(inc), p.value.cur, q.value.cur);
      var s, t := m.unary(StepOp(inc), p.value.cur), m.unary(StepOp(inc), q.value.cur);
      if s.Some? {
        k := PutLike(m, f, g, k1, p.value.obj, q.value.obj, l.msg, s.value, t.value, p.value.w, q.value.w);
        After(j, k1, k, PutField(m, f, p.value.obj, l.msg, s.value, p.value.w),
          PutField(m, f, q.value.obj, l.msg, t.value, q.value.w));
        if PutField(m, f, p.value.obj, l.msg, s.value, p.value.w).Some? {
          Carry(k1, k, p.value.cur, q.value.cur);
        }
      }
    }
  }

  lemma PostMirrors(m: Sem, f: Env, g: bool, e: Expr, d: Expr, j: Ids, u: World, w: World) returns (k: Ids)
    requires Lets(m, g) && e.EStep? && d.EStep? && e.inc == d.inc && HasPlace(e.lhs)
    requires SameShape(m, f, g, e.lhs, d.lhs) && Mirrors(m, f, g, e.lhs, d.lhs) && Fits(g, j, u, w)
    ensures ValueLike(j, EvalPost(m, f, e, u), EvalPost(m, f, d, w), k)
  {
    hide Mirrors, SameShape, HasPlace, Eval, Place, Lets, Laws, Fits, LikeWorld, Like, LikeLoc, Grows, StepLoc,
        Deref, Fetch, Assign, PutField, EvalPre;
    SameKind(m, f, g, e.lhs, d.lhs);
    if StepsInPlace(f, e.lhs) {
      var n;
      n, k := SteppedPlaceMirrors(m, f, g, e.inc, e.lhs, d.lhs, j, u, w);
    } else if e.lhs.EField? && f.harbour {
      k := SteppedFieldMirrors(m, f, g, e.inc, e.lhs, d.lhs, j, u, w);
    } else {
      k := UseValue(m, f, g, e.lhs, d.lhs, j, u, w);
      var a, b := Eval(m, f, e.lhs, u), Eval(m, f, d.lhs, w);
      if a.Some? && e.lhs.EField? {
        var k1 := k;
        k := PreMirrors(m, f, g, e, d, k1, a.value.w, b.value.w);
        if EvalPre(m, f, e, a.value.w).Some? {
          Carry(k1, k, a.value.v, b.value.v);
          GrowsThen(j, k1, k);
        }
      } else if a.Some? {
        var k1 := k;
        AllowedAt(m, g, k1, a.value.w, b.value.w);
        UnaryLike(m, k1, StepOp(e.inc), a.value.v, b.value.v);
        var s, t := m.unary(StepOp(e.inc), a.value.v), m.unary(StepOp(e.inc), b.value.v);
        if s.Some? {
          k := AssignMirrors(m, f, g, e.lhs, d.lhs, s.value, t.value, k1, a.value.w, b.value.w);
          if Assign(m, f, e.lhs, s.value, a.value.w).Some? {
            Carry(k1, k, a.value.v, b.value.v);
            GrowsThen(j, k1, k);
          }
        }
      }
    }
  }

  lemma EachUpdate(m: Sem, f: Env, g: bool, op: ArithOp, l: Expr, r: Expr, l2: Expr, r2: Expr)
    requires Lets(m, g) && SameShape(m, f, g, l, l2) && Mirrors(m, f, g, l, l2) && Mirrors(m, f, g, r, r2)
    ensures Mirrors(m, f, g, EOpAssign(op, l, r), EOpAssign(op, l2, r2))
  {
    hide Eval, Effect, EvalArg, Mirrors, Lets, Laws, LikeWorld, Like, Grows, EvalOpAssign, SameShape, Fits, HasPlace,
        Agrees;
    var e, d := EOpAssign(op, l, r), EOpAssign(op, l2, r2);
    forall j, u, w | Fits(g, j, u, w)
      ensures Agrees(m, f, j, e, d, u, w)
    {
      AssignForm(m, f, e, u);
      AssignForm(m, f, d, w);
      var k := j;
      if HasPlace(l) {
        k := UpdateMirrors(m, f, g, e, d, j, u, w);
      } else {
        NoPlaceNoUpdate(m, f, e, u);
      }
      CombineSame(m, f, j, e, d, u, w, k);
    }
    Conclude(m, f, g, e, d);
  }

  lemma EachStep(m: Sem, f: Env, g: bool, pre: bool, inc: bool, l: Expr, l2: Expr)
    requires Lets(m, g) && SameShape(m, f, g, l, l2) && Mirrors(m, f, g, l, l2)
    ensures Mirrors(m, f, g, EStep(pre, inc, l), EStep(pre, inc, l2))
  {
    hide Eval, Effect, EvalArg, Mirrors, Lets, Laws, LikeWorld, Like, Grows, EvalPre, EvalPost, SameShape, Fits,
        HasPlace, Agrees;
    var e, d := EStep(pre, inc, l), EStep(pre, inc, l2);
    forall j, u, w | Fits(g, j, u, w)
      ensures Agrees(m, f, j, e, d, u, w)
    {
      AssignForm(m, f, e, u);
      AssignForm(m, f, d, w);
      var k, c := j, j;
      if HasPlace(l) {
        k := PostMirrors(m, f, g, e, d, j, u, w);
        c := PreMirrors(m, f, g, e, d, j, u, w);
      } else {
        NoPlaceNoUpdate(m, f, e, u);
      }
      Combine(m, f, j, e, d, u, w, if pre then c else k, c);
    }
    Conclude(m, f, g, e, d);
  }

  // ----- one replacement after another -----

  lemma MirrorsThen(m: Sem, f: Env, g: bool, a: Expr, b: Expr, c: Expr)
    requires Mirrors(m, f, g, a, b) && Mirrors(m, f, g, b, c)
    ensures Mirrors(m, f, g, a, c)
  {
    hide Mirrors, Agrees, Eval, Effect, EvalArg, LikeWorld, Like, LikeItem, Grows, Compose, Image;
    forall j, u, w | Fits(g, j, u, w)
      ensures Agrees(m, f, j, a, c, u, w)
    {
      WorldInImage(j, u, w);
      var i := Image(j);
      var k := UseValue(m, f, g, a, b, j, u, w);
      var k2 := UseValue(m, f, g, b, c, i, w, w);
      var l := UseEffect(m, f, g, a, b, j, u, w);
      var l2 := UseEffect(m, f, g, b, c, i, w, w);
      var n := UseArg(m, f, g, a, b, j, u, w);
      var n2 := UseArg(m, f, g, b, c, i, w, w);
      ValueThen(j, k, k2, Eval(m, f, a, u), Eval(m, f, b, w), Eval(m, f, c, w));
      EffectThen(j, l, l2, Effect(m, f, a, u), Effect(m, f, b, w), Effect(m, f, c, w));
      ArgThen(j, n, n2, EvalArg(m, f, a, u), EvalArg(m, f, b, w), EvalArg(m, f, c, w));
      Witness(m, f, j, a, c, u, w, Compose(k, k2), Compose(l, l2), Compose(n, n2));
    }
    Conclude(m, f, g, a, c);
  }

  lemma SameMode(j: Ids, k: Ids, l: Ids)
    requires Grows(j, k) && Grows(Image(j), l)
    ensures k.Renamed? == l.Renamed?
  {
  }

  lemma ValueThen(j: Ids, k: Ids, l: Ids, r: Outcome, s: Outcome, t: Outcome)
    requires ValueLike(j, r, s, k) && ValueLike(Image(j), s, t, l)
    ensures ValueLike(j, r, t, Compose(k, l))
  {
    hide LikeWorld, Like, Grows, Compose, Image;
    if r.Some? {
      SameMode(j, k, l);
      GrowsComposed(j, k, l);
      LikeThen(k, l, r.value.v, s.value.v, t.value.v);
      WorldThen(k, l, r.value.w, s.value.w, t.value.w);
    }
  }

  lemma EffectThen(j: Ids, k: Ids, l: Ids, r: Option<World>, s: Option<World>, t: Option<World>)
    requires WorldLike(j, r, s, k) && WorldLike(Image(j), s, t, l)
    ensures WorldLike(j, r, t, Compose(k, l))
  {
    hide LikeWorld, Grows, Compose, Image;
    if r.Some? {
      SameMode(j, k, l);
      GrowsComposed(j, k, l);
      WorldThen(k, l, r.value, s.value, t.value);
    }
  }

  lemma ArgThen(j: Ids, k: Ids, l: Ids, r: Option<Pushed>, s: Option<Pushed>, t: Option<Pushed>)
    requires ItemLike(j, r, s, k) && ItemLike(Image(j), s, t, l)
    ensures ItemLike(j, r, t, Compose(k, l))
  {
    hide LikeWorld, LikeItem, Grows, Compose, Image;
    if r.Some? {
      SameMode(j, k, l);
      GrowsComposed(j, k, l);
      ItemThen(k, l, r.value.item, s.value.item, t.value.item);
      WorldThen(k, l, r.value.w, s.value.w, t.value.w);
    }
  }

  /** A reference as an argument. */
  lemma EachRef(m: Sem, f: Env, g: bool, l: Expr, d: Expr)
    requires Lets(m, g) && SameShape(m, f, g, l, d)
    ensures Mirrors(m, f, g, ERef(l), ERef(d))
  {
    hide Mirrors, Agrees, Fits, Lets, SameShape, Eval, Effect, EvalArg, Place, LikeWorld, LikeLoc, Grows;
    forall j, u, w | Fits(g, j, u, w)
      ensures Agrees(m, f, j, ERef(l), ERef(d), u, w)
    {
      RefArg(m, f, l, u);
      RefArg(m, f, d, w);
      var k := PlaceMirrors(m, f, g, l, d, j, u, w);
      Witness(m, f, j, ERef(l), ERef(d), u, w, k, k, k);
    }
    Conclude(m, f, g, ERef(l), ERef(d));
  }

  // ----- every expression mirrors itself -----

  predicate IsLeaf(e: Expr)
  {
    e.ENil? || e.ELogical? || e.ENumber? || e.EVar? || e.EAliasSym?
  }

  lemma LeafForms(m: Sem, f: Env, e: Expr, w: World)
    requires IsLeaf(e)
    ensures Eval(m, f, e, w) ==
      match e
      case ENil => Some(Result(Nil, w))
      case ELogical(b) => Some(Result(Logical(b), w))
      case ENumber(n) => Some(Result(Num(n), w))
      case EAliasSym(s) => Some(Result(Symbol(s), w))
      case EVar(x) => (var v :- ReadVar(w, x); Some(Result(v, w)))
    ensures Effect(m, f, e, w) == if e.EVar? then Discard(Eval(m, f, e, w)) else Some(w)
  {
    hide ReadVar;
  }

  lemma LeafMirrors(m: Sem, f: Env, g: bool, e: Expr)
    requires IsLeaf(e)
    ensures Mirrors(m, f, g, e, e)
  {
    hide Mirrors, Agrees, Fits, Eval, Effect, EvalArg, LikeWorld, Grows, ReadVar;
    forall j, u, w | Fits(g, j, u, w)
      ensures Agrees(m, f, j, e, e, u, w)
    {
      LeafForms(m, f, e, u);
      LeafForms(m, f, e, w);
      GrowsItself(j);
      FitsLike(g, j, u, w);
      if e.EVar? {
        ReadLike(j, u, w, e.x);
      }
      Combine(m, f, j, e, e, u, w, j, j);
    }
    Conclude(m, f, g, e, e);
  }

  /** No expression can tell how arrays are numbered, or whether there are more of them. */
  lemma {:induction false} MirrorsItself(m: Sem, f: Env, g: bool, e: Expr)
    requires Lets(m, g)
    ensures Mirrors(m, f, g, e, e)
    decreases e, 2
  {
    hide Mirrors, Lets, SameShape, AllMirror;
    match e
    case ERef(t) => ShapeItself(m, f, g, t); EachRef(m, f, g, t, t);
    case EIif(c, t, n) =>
      MirrorsItself(m, f, g, c);
      MirrorsItself(m, f, g, t);
      MirrorsItself(m, f, g, n);
      EachIif(m, f, g, c, t, n, c, t, n);
    case EList(es) => AllMirrorThemselves(m, f, g, es); EachList(m, f, g, es, es);
    case EArray(es) => AllMirrorThemselves(m, f, g, es); EachArray(m, f, g, es, es);
    case EIndex(a, i) => MirrorsItself(m, f, g, a); MirrorsItself(m, f, g, i); EachIndex(m, f, g, a, i, a, i);
    case ECall(h, es) => AllMirrorThemselves(m, f, g, es); EachCall(m, f, g, h, es, es);
    case EField(o, msg) => MirrorsItself(m, f, g, o); EachField(m, f, g, o, o, msg);
    case EMethod(o, msg, es) =>
      MirrorsItself(m, f, g, o);
      AllMirrorThemselves(m, f, g, es);
      EachMethod(m, f, g, o, o, msg, es, es);
    case EAliased(a, b) => MirrorsItself(m, f, g, a); MirrorsItself(m, f, g, b); EachAliased(m, f, g, a, b, a, b);
    case EAssign(l, r) => ShapeItself(m, f, g, l); MirrorsItself(m, f, g, r); EachAssign(m, f, g, l, r, l, r);
    case EOpAssign(op, l, r) =>
      ShapeItself(m, f, g, l);
      MirrorsItself(m, f, g, l);
      MirrorsItself(m, f, g, r);
      EachUpdate(m, f, g, op, l, r, l, r);
    case EStep(pre, inc, l) => ShapeItself(m, f, g, l); MirrorsItself(m, f, g, l); EachStep(m, f, g, pre, inc, l, l);
    case EAnd(l, r) => MirrorsItself(m, f, g, l); MirrorsItself(m, f, g, r); EachAnd(m, f, g, l, r, l, r);
    case EOr(l, r) => MirrorsItself(m, f, g, l); MirrorsItself(m, f, g, r); EachOr(m, f, g, l, r, l, r);
    case ENot(x) => MirrorsItself(m, f, g, x); EachNot(m, f, g, x, x);
    case ENegate(x) => MirrorsItself(m, f, g, x); EachNegate(m, f, g, x, x);
    case EBin(op, l, r) => MirrorsItself(m, f, g, l); MirrorsItself(m, f, g, r); EachBin(m, f, g, op, l, r, l, r);
    case _ => LeafMirrors(m, f, g, e);
  }

  lemma {:induction false} AllMirrorThemselves(m: Sem, f: Env, g: bool, es: Exprs)
    requires Lets(m, g)
    ensures AllMirror(m, f, g, es, es)
    decreases es, 0
  {
    hide Mirrors, Lets;
    if es.More? {
      MirrorsItself(m, f, g, es.head);
      AllMirrorThemselves(m, f, g, es.tail);
    }
  }

  lemma {:induction false} ShapeItself(m: Sem, f: Env, g: bool, l: Expr)
    requires Lets(m, g)
    ensures SameShape(m, f, g, l, l)
    decreases l, 3
  {
    hide Mirrors, Lets;
    match l
    case EIndex(a, i) =>
      MirrorsItself(m, f, g, a);
      MirrorsItself(m, f, g, i);
      ShapeItself(m, f, g, a);
    case EField(o, _) => MirrorsItself(m, f, g, o);
    case EMethod(o, _, _) => MirrorsItself(m, f, g, o);
    case ERef(t) => ShapeItself(m, f, g, t);
    case EIif(c, t, n) =>
      MirrorsItself(m, f, g, c);
      ShapeItself(m, f, g, t);
      ShapeItself(m, f, g, n);
    case _ =>
  }
}
