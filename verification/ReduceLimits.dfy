/** Where the REDUCE pass does change what a program does, and exactly when. */
module ReduceLimits {
  import opened Wrappers
  import opened Runtime
  import opened Expr
  import opened Forms
  import opened Effects
  import opened Encodings
  import opened BitFold
  import opened Reduce
  import opened Storage

  // ----- expr .AND. .F. and expr .OR. .T. -----

  /** The first operand is dropped with all it does: the rewriting is right in a world if and only
      if evaluating the operand leaves that world as it is. */
  lemma DroppedOperand(m: Sem, f: Env, l: Expr, decides: bool, w: World)
    requires f.shortcuts && !l.ELogical?
    requires Eval(m, f, l, w).Some? && Eval(m, f, l, w).value.v.Logical?
    ensures var r, w1 := ELogical(!decides), Eval(m, f, l, w).value.w;
      var e, d := if decides then EAnd(l, r) else EOr(l, r), if decides then MakeAnd(f, l, r) else MakeOr(f, l, r);
      Eval(m, f, d, w) == Eval(m, f, e, w) <==> w1 == w
  {
    hide Eval;
    var r := ELogical(!decides);
    ShortForm(m, f, EAnd(l, r), w);
    ShortForm(m, f, EOr(l, r), w);
    LiteralValue(m, f, r, w);
    LiteralValue(m, f, r, Eval(m, f, l, w).value.w);
  }

  // ----- undeclared arrays -----

  /** Taking an undeclared array name for a memvar is right if and only if the current work area has
      no such field, or it holds the same value. */
  lemma UndeclaredArray(m: Sem, f: Env, s: U16, w: World)
    ensures Eval(m, f, ArrayVar(EVar(Undeclared(s))), w) == Eval(m, f, EVar(Undeclared(s)), w) <==>
      FieldCell(w.area, s) !in w.cells || Get(w, FieldCell(w.area, s)) == Get(w, MemvarCell(s))
  {
  }

  // ----- an element of a literal array -----

  function Before(es: Exprs, n: int): Exprs
    requires 1 <= n <= Len(es)
  {
    if n == 1 then NoMore else More(es.head, Before(es.tail, n - 1))
  }

  lemma {:induction false} ArgAfterOthers(m: Sem, f: Env, es: Exprs, n: int, w: World)
    requires 1 <= n <= Len(es) && EvalArgs(m, f, es, w).Some?
    ensures EvalArgs(m, f, Before(es, n), w).Some? && |EvalArgs(m, f, es, w).value.items| == Len(es)
    ensures var w1 := EvalArgs(m, f, Before(es, n), w).value.w;
      EvalArg(m, f, Nth(es, n), w1).Some? && EvalArgs(m, f, es, w).value.items[n - 1] == EvalArg(m, f, Nth(es, n),
          w1).value.item
    decreases es
  {
    hide EvalArg;
    ArgsCounted(m, f, es, w);
    if n > 1 {
      ArgAfterOthers(m, f, es.tail, n - 1, EvalArg(m, f, es.head, w).value.w);
    } else {
      assert EvalArgs(m, f, NoMore, w).Some?;
    }
  }

  /** A variable taken out of a literal array keeps its value if and only if the elements before it
      leave it with the value it had at the start. */
  lemma ChosenVariable(m: Sem, f: Env, es: Exprs, n: S64, x: Var, w: World)
    requires 1 <= n <= Len(es) && Nth(es, n) == EVar(x) && Eval(m, f, EIndex(EArray(es), ENumber(n)), w).Some?
    ensures At(EArray(es), ENumber(n)) == EVar(x) && EvalArgs(m, f, Before(es, n), w).Some?
    ensures var v, w1 := Eval(m, f, EIndex(EArray(es), ENumber(n)), w).value.v, EvalArgs(m, f, Before(es, n),
        w).value.w;
      (Eval(m, f, EVar(x), w).Some? && Eval(m, f, EVar(x), w).value.v == v) <==> ReadVar(w, x) == ReadVar(w1, x)
  {
    hide Eval, EvalArg, EvalArgs, ReadVar;
    var a, e := EArray(es), EIndex(EArray(es), ENumber(n));
    OperatorForm(m, f, e, w);
    ListForm(m, f, a, w);
    ArgAfterOthers(m, f, es, n, w);
    PlainAt(EvalArgs(m, f, es, w).value.items, n - 1);
    NumberArg(m, f, n, Eval(m, f, a, w).value.w);
    var w1 := EvalArgs(m, f, Before(es, n), w).value.w;
    ArgForm(m, f, EVar(x), w1);
    VarValue(m, f, x, w1);
    VarValue(m, f, x, w);
  }

  /** In `{ x := 5, x }[ 2 ]` the second element alone no longer sees the assignment. */
  lemma ElementNeedsTheOthers(m: Sem, f: Env, w: World)
    requires Get(w, LocalCell(1)) == Some(Num(1))
    ensures var x := EVar(Local(1));
      var es := More(EAssign(x, ENumber(5)), More(x, NoMore));
      var e := EIndex(EArray(es), ENumber(2));
      && Eval(m, f, e, w).Some? && Eval(m, f, e, w).value.v == Num(5)
      && Eval(m, f, Reduced(f, e), w) == Some(Result(Num(1), w))
  {
    hide Eval, EvalArgs, EvalArg, Reduced;
    var x := EVar(Local(1));
    var es := More(EAssign(x, ENumber(5)), More(x, NoMore));
    var e := EIndex(EArray(es), ENumber(2));
    ElementAfterAssignment(m, f, w);
    OperatorForm(m, f, e, w);
    ListForm(m, f, EArray(es), w);
    NumberArg(m, f, 2, Eval(m, f, EArray(es), w).value.w);
    ReducedPair(f, es);
    LocalValue(m, f, w);
  }

  lemma LocalValue(m: Sem, f: Env, w: World)
    ensures Eval(m, f, EVar(Local(1)), w) == (var v :- Get(w, LocalCell(1)); Some(Result(v, w)))
  {
  }

  lemma ElementAfterAssignment(m: Sem, f: Env, w: World)
    ensures var x := EVar(Local(1));
      EvalArgs(m, f, More(EAssign(x, ENumber(5)), More(x, NoMore)), w) ==
        Some(PushedAll([Val(Num(5)), Val(Num(5))], w.(cells := w.cells[LocalCell(1) := Num(5)])))
  {
    hide Eval, EvalArg;
    var x, w1 := EVar(Local(1)), w.(cells := w.cells[LocalCell(1) := Num(5)]);
    var a := EAssign(x, ENumber(5));
    AssignForm(m, f, a, w);
    NumberArg(m, f, 5, w);
    LocalValue(m, f, w1);
    ArgForm(m, f, a, w);
    ArgForm(m, f, x, w1);
    assert EvalArgs(m, f, NoMore, w1) == Some(PushedAll([], w1));
    assert EvalArgs(m, f, More(x, NoMore), w1) == Some(PushedAll([Val(Num(5))] + [], w1));
    assert [Val(Num(5))] + [] == [Val(Num(5))];
    assert [Val(Num(5))] + [Val(Num(5))] == [Val(Num(5)), Val(Num(5))];
    assert Eval(m, f, a, w) == Some(Result(Num(5), w1));
  }

  lemma ReducedPair(f: Env, es: Exprs)
    requires es == More(EAssign(EVar(Local(1)), ENumber(5)), More(EVar(Local(1)), NoMore))
    ensures Reduced(f, EIndex(EArray(es), ENumber(2))) == EVar(Local(1))
  {
    assert ReducedAll(f, es.tail) == es.tail;
    assert Reduced(f, es.head) == es.head;
    assert ReducedAll(f, es) == es;
    assert Nth(es, 2) == es.tail.head;
  }

  /** An element of a literal array as a left-hand side becomes what stands there. When that is a
      variable, the program that assigned to the array keeps all variables; the one that assigns to
      the variable does so if and only if it already holds the value. */
  lemma LiteralTarget(m: Sem, f: Env, es: Exprs, n: S64, x: Var, rhs: Expr, w: World)
    requires 1 <= n <= Len(es) && Nth(es, n) == EVar(x) && PureBut(es, n)
    requires var e, d := EAssign(EIndex(EArray(es), ENumber(n)), rhs), EAssign(At(EArray(es), ENumber(n)), rhs);
      Eval(m, f, e, w).Some? && Eval(m, f, d, w).Some?
    ensures At(EArray(es), ENumber(n)) == EVar(x) && Eval(m, f, rhs, w).Some?
    ensures var e, d := EAssign(EIndex(EArray(es), ENumber(n)), rhs), EAssign(EVar(x), rhs);
      var r, was, now := Eval(m, f, rhs, w).value, Eval(m, f, e, w).value, Eval(m, f, d, w).value;
      && was.v == now.v == r.v && was.w.cells == r.w.cells
      && (now.w.cells == was.w.cells <==> Get(r.w, Written(x, r.w)) == Some(r.v))
  {
    hide Eval, EvalArgs, Place, Assign, PureBut;
    var l := EIndex(EArray(es), ENumber(n));
    AssignForm(m, f, EAssign(l, rhs), w);
    AssignForm(m, f, EAssign(EVar(x), rhs), w);
    var r := Eval(m, f, rhs, w).value;
    ElementAssigned(m, f, l, r.v, r.w);
    LiteralPlace(m, f, es, n, x, r.w);
    VariableAssigned(m, f, x, r.v, r.w);
  }

  lemma VariableAssigned(m: Sem, f: Env, x: Var, v: Value, w: World)
    ensures Assign(m, f, EVar(x), v, w) == WriteVar(w, x, v)
    ensures WriteVar(w, x, v).Some? ==> WriteVar(w, x, v).value.cells == w.cells[Written(x, w) := v]
    ensures w.cells[Written(x, w) := v] == w.cells <==> Get(w, Written(x, w)) == Some(v)
  {
    var c := Written(x, w);
    if w.cells[c := v] == w.cells {
      assert c in w.cells[c := v] && w.cells[c := v][c] == v;
    }
  }

  lemma ElementAssigned(m: Sem, f: Env, l: Expr, v: Value, w: World)
    requires l.EIndex?
    ensures Assign(m, f, l, v, w) == (var p :- Place(m, f, l, w); Store(m, p.loc, v, p.w))
  {
    hide Place;
  }

  /** The place is in the new array; finding it changes no variable. */
  lemma LiteralPlace(m: Sem, f: Env, es: Exprs, n: S64, x: Var, w: World)
    requires 1 <= n <= Len(es) && Nth(es, n) == EVar(x) && PureBut(es, n)
    ensures var p := Place(m, f, EIndex(EArray(es), ENumber(n)), w);
      p.Some? ==> p.value.loc.ElemLoc? && p.value.w.cells == w.cells
  {
    hide Eval, EvalArgs, PureBut;
    ListForm(m, f, EArray(es), w);
    var a := Eval(m, f, EArray(es), w);
    if a.Some? {
      OnlyOneMatters(m, f, es, n, w);
      VarValue(m, f, x, w);
      NumberArg(m, f, n, a.value.w);
    }
  }

  /** `{ x }[ 1 ] := 5` sets x. */
  lemma LiteralTargetExample(m: Sem, f: Env, w: World)
    requires LocalCell(1) in w.cells && w.cells[LocalCell(1)] != Num(5)
    ensures var e := EAssign(EIndex(EArray(More(EVar(Local(1)), NoMore)), ENumber(1)), ENumber(5));
      && Eval(m, f, e, w).Some? && Eval(m, f, e, w).value.w.cells == w.cells
      && Reduced(f, e) == EAssign(EVar(Local(1)), ENumber(5))
      && Eval(m, f, Reduced(f, e), w) == Some(Result(Num(5), w.(cells := w.cells[LocalCell(1) := Num(5)])))
  {
    hide Eval, Place, Assign;
    var x, es := EVar(Local(1)), More(EVar(Local(1)), NoMore);
    var l := EIndex(EArray(es), ENumber(1));
    AssignForm(m, f, EAssign(l, ENumber(5)), w);
    NumberArg(m, f, 5, w);
    ExamplePlace(m, f, w);
    ElementAssigned(m, f, l, Num(5), w);
    AssignForm(m, f, EAssign(x, ENumber(5)), w);
    VariableAssigned(m, f, Local(1), Num(5), w);
    assert ReducedAll(f, es) == es;
    assert Reduced(f, EArray(es)) == EArray(es);
    assert Reduced(f, l) == x;
  }

  lemma ExamplePlace(m: Sem, f: Env, w: World)
    requires LocalCell(1) in w.cells
    ensures var p := Place(m, f, EIndex(EArray(More(EVar(Local(1)), NoMore)), ENumber(1)), w);
      p == Some(Placed(ElemLoc(|w.heap|, 1), w.(heap := w.heap + [[w.cells[LocalCell(1)]]])))
  {
    hide Eval, EvalArg;
    var es := More(EVar(Local(1)), NoMore);
    var v := w.cells[LocalCell(1)];
    LocalValue(m, f, w);
    ArgForm(m, f, EVar(Local(1)), w);
    assert EvalArgs(m, f, NoMore, w) == Some(PushedAll([], w));
    assert EvalArgs(m, f, es, w) == Some(PushedAll([Val(v)] + [], w));
    assert PlainValues([Val(v)]) == Some([v]) by {
      assert [Val(v)][1..] == [] && PlainValues([]) == Some([]) && [v] + [] == [v];
    }
    ListForm(m, f, EArray(es), w);
    NumberArg(m, f, 1, w.(heap := w.heap + [[v]]));
  }

  // ----- parentheses around a target -----

  /** A target in parentheses is reduced to what it is without them. */
  lemma TargetInParentheses(f: Env, t: Trust, l: Expr)
    requires SafeLeft(f, t, l)
    ensures Left(f, Reduced(f, EList(More(l, NoMore)))) == Left(f, Reduced(f, l))
  {
    hide Safe, PureBut;
    var d := Reduced(f, l);
    assert ReducedAll(f, More(l, NoMore)) == More(d, NoMore) by { assert ReducedAll(f, NoMore) == NoMore; }
    assert !d.EList? && !IsOperator(d);
    assert Strip(d) == d && Strip(EList(More(d, NoMore))) == d;
  }
}
