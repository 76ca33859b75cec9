/** A machine that meets every law the theorems ask for, so that none of them is empty. */
module Machine {
  import opened Wrappers
  import opened Runtime
  import opened Expr
  import opened Encodings
  import opened Effects
  import opened Likeness
  import opened BitFold
  import opened Reduce
  import Arithmetic
  import Correct

  /** The operators on logicals, and no others. */
  function Logic(op: BinOp, a: Value, b: Value): Option<Value>
  {
    if !a.Logical? || !b.Logical? then None
    else if op == Rel(LogicalAnd) then Some(Logical(a.b && b.b))
    else if op == Rel(LogicalOr) then Some(Logical(a.b || b.b))
    else None
  }

  /** The bit functions compute and leave no record; other functions return NIL. */
  function CallOf(f: Env, g: U16, items: seq<Item>, w: World): Outcome
  {
    if f.bits(g).Some? && |items| >= 2 && AllInts(items) then
      if w.trace == [] then None
      else Some(Result(Num(Combined(f.bits(g).value, items[0].v.n, items[1..])), w.(trace := w.trace[..|w.trace| - 1])))
    else Some(Result(Nil, w))
  }

  function Opposite(op: UnOp, a: Value): Option<Value>
  {
    if op == Not && a.Logical? then Some(Logical(!a.b)) else None
  }

  function Unarithmetic(f: Env): Sem
  {
    Sem((op, a, b) => Logic(op, a, b),
        (op, a) => Opposite(op, a),
        (a, k) => None,
        (g: U16, items, w) => CallOf(f, g, items, w),
        (o, g, items, w) => Some(Result(Nil, w)),
        (a, w) => None,
        g => g)
  }

  function Simple(f: Env): Sem
  {
    Arithmetic.WithArithmetic(Unarithmetic(f))
  }

  lemma SimpleBits(f: Env)
    ensures BitLaws(Simple(f), f)
  {
    hide GivesBits, Combined;
    var m := Simple(f);
    forall g: U16, items: seq<Item>, w: World | f.bits(g).Some? && |items| >= 2 && AllInts(items)
      ensures GivesBits(f.bits(g).value, items, w, DoCall(m, g, items, w))
    {
      CombinedGives(f.bits(g).value, items, w);
      var t := w.trace + [Called(g, items)];
      assert t[..|t| - 1] == w.trace;
    }
  }

  lemma IntsLike(j: Ids, s: seq<Item>, t: seq<Item>)
    requires LikeItems(j, s, t)
    ensures AllInts(s) == AllInts(t)
    ensures AllInts(s) ==> s == t
  {
    forall i | 0 <= i < |s|
      ensures IsInt(s[i]) == IsInt(t[i]) && (IsInt(s[i]) ==> s[i] == t[i])
    {
      assert LikeItem(j, s[i], t[i]);
    }
  }

  lemma CallsLike(f: Env, j: Ids, g: U16, s: seq<Item>, t: seq<Item>, u: World, w: World)
    requires LikeItems(j, s, t) && LikeWorld(j, u, w)
    ensures OutcomesLike(j, CallOf(f, g, s, u), CallOf(f, g, t, w))
  {
    IntsLike(j, s, t);
    GrowsItself(j);
    assert ValueLike(j, CallOf(f, g, s, u), CallOf(f, g, t, w), j) by {
      hide LikeCells, LikeHeap, Combined;
    }
  }

  /** Operators neither take nor give arrays. */
  lemma NoArrays(f: Env, op: BinOp, a: Value, b: Value)
    ensures var r := Simple(f).binary(op, a, b); r.Some? ==> !a.Array? && !b.Array? && !r.value.Array?
  {
    hide Arithmetic.AddInts, Arithmetic.SubtractInts, CallOf;
    NoArrayResults(a, b);
  }

  lemma NoArrayResults(a: Value, b: Value)
    ensures Arithmetic.Plus(a, b).Some? ==> !a.Array? && !b.Array? && !Arithmetic.Plus(a, b).value.Array?
    ensures Arithmetic.Minus(a, b).Some? ==> !a.Array? && !b.Array? && !Arithmetic.Minus(a, b).value.Array?
  {
  }

  lemma NoArraySteps(f: Env, op: UnOp, a: Value)
    ensures var r := Simple(f).unary(op, a); r.Some? ==> !a.Array? && !r.value.Array?
  {
    NoArrayStepped(true, a);
    NoArrayStepped(false, a);
    assert Simple(f).unary(op, a) ==
      if op == Inc then Arithmetic.Step(true, a) else if op == Dec then Arithmetic.Step(false, a) else Opposite(op, a);
  }

  lemma NoArrayStepped(inc: bool, a: Value)
    ensures Arithmetic.Step(inc, a).Some? ==> !a.Array? && !Arithmetic.Step(inc, a).value.Array?
  {
  }

  lemma SimpleOperators(f: Env)
    ensures BlindOperators(Simple(f))
  {
    hide Simple;
    var m := Simple(f);
    forall j, op, a, b, x, y | Like(j, a, b) && Like(j, x, y) && m.binary(op, a, x).Some?
      ensures m.binary(op, b, y).Some? && Like(j, m.binary(op, a, x).value, m.binary(op, b, y).value)
    {
      NoArrays(f, op, a, x);
    }
    forall j, op, a, b | Like(j, a, b) && m.unary(op, a).Some?
      ensures m.unary(op, b).Some? && Like(j, m.unary(op, a).value, m.unary(op, b).value)
    {
      NoArraySteps(f, op, a);
    }
  }

  lemma SimpleIsBlind(f: Env)
    ensures Blind(Simple(f))
  {
    hide LikeWorld, LikeItems, Like, CallOf;
    var m := Simple(f);
    SimpleOperators(f);
    forall j, g, s, t, u, w | LikeItems(j, s, t) && LikeWorld(j, u, w)
      ensures OutcomesLike(j, m.call(g, s, u), m.call(g, t, w))
    {
      CallsLike(f, j, g, s, t, u, w);
    }
    forall j, a, b, g, s, t, u, w | Like(j, a, b) && LikeItems(j, s, t) && LikeWorld(j, u, w)
      ensures OutcomesLike(j, m.send(a, g, s, u), m.send(b, g, t, w))
    {
      NilLike(j, u, w);
    }
  }

  lemma NilLike(j: Ids, u: World, w: World)
    requires LikeWorld(j, u, w)
    ensures OutcomesLike(j, Some(Result(Nil, u)), Some(Result(Nil, w)))
  {
    hide LikeWorld;
    GrowsItself(j);
    assert ValueLike(j, Some(Result(Nil, u)), Some(Result(Nil, w)), j);
  }

  lemma SimpleSpares(f: Env)
    ensures SparesLocals(Simple(f))
  {
  }

  lemma LogicResults(f: Env, v: Value, a: bool, b: bool)
    ensures Simple(f).unary(Not, v) == Opposite(Not, v)
    ensures Simple(f).binary(Rel(LogicalAnd), Logical(a), Logical(b)) == Some(Logical(a && b))
    ensures Simple(f).binary(Rel(LogicalOr), Logical(a), Logical(b)) == Some(Logical(a || b))
  {
  }

  lemma SimpleLogic(f: Env)
    ensures LogicLaws(Simple(f))
  {
    hide Simple;
    var m := Simple(f);
    forall v
      ensures m.unary(Not, v) == Opposite(Not, v)
    {
      LogicResults(f, v, true, true);
    }
    forall a, b
      ensures m.binary(Rel(LogicalAnd), Logical(a), Logical(b)) == Some(Logical(a && b))
      ensures m.binary(Rel(LogicalOr), Logical(a), Logical(b)) == Some(Logical(a || b))
    {
      LogicResults(f, Nil, a, b);
    }
  }

  lemma SimpleQuiet(f: Env)
    ensures Quiet(Simple(f))
  {
  }

  /** All of them at once, for any set of switches and any functions taken for bit functions. */
  lemma LawsHold(f: Env, t: Trust)
    ensures var m := Simple(f); Correct.Lawful(m) && Assumed(m, f, t) && Blind(m) && Quiet(m)
  {
    hide Blind, BitLaws, SparesLocals, Correct.Lawful, LogicLaws, Quiet, Unarithmetic, Arithmetic.WithArithmetic;
    SimpleBits(f);
    SimpleIsBlind(f);
    SimpleSpares(f);
    SimpleLogic(f);
    SimpleQuiet(f);
    Arithmetic.MachineIsLawful(Unarithmetic(f));
  }
}
