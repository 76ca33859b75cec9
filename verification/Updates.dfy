/** In what order `op=`, `++` and `--` read, evaluate and write, by kind of target and by mode. Nothing
    here refers to the choice between the encodings; the modes are the switches themselves. */
module Updates {
  import opened Wrappers
  import opened Runtime
  import opened Expr
  import opened Forms
  import opened Effects
  import opened Encodings
  import Arithmetic

  // ----- fields -----

  /** `o:msg op= e`. Outside strict mode with the extended optimisations the object is evaluated, then
      `e`, and only then the field is read and assigned. Without them it is read before `e`; in strict
      mode the object is evaluated twice as well. */
  lemma FieldUpdateOrder(m: Sem, f: Env, op: ArithOp, o: Expr, msg: U16, e: Expr, w: World)
    ensures f.harbour && f.extopt ==>
      Eval(m, f, EOpAssign(op, EField(o, msg), e), w) == (
      var obj :- Eval(m, f, o, w);
      var r :- Eval(m, f, e, obj.w);
      var was :- DoSend(m, obj.v, m.getter(f.setter(msg)), [], r.w);
      var v :- m.binary(Arith(op), was.v, r.v);
      var put :- DoSend(m, obj.v, f.setter(msg), [Val(v)], was.w);
      Some(Result(v, put.w)))
    ensures f.harbour && !f.extopt ==>
      Eval(m, f, EOpAssign(op, EField(o, msg), e), w) == (
      var obj :- Eval(m, f, o, w);
      var was :- DoSend(m, obj.v, msg, [], obj.w);
      var r :- Eval(m, f, e, was.w);
      var v :- m.binary(Arith(op), was.v, r.v);
      DoSend(m, obj.v, f.setter(msg), [Val(v)], r.w))
    ensures !f.harbour ==>
      Eval(m, f, EOpAssign(op, EField(o, msg), e), w) == (
      var obj :- Eval(m, f, o, w);
      var again :- Eval(m, f, o, obj.w);
      var was :- DoSend(m, again.v, msg, [], again.w);
      var r :- Eval(m, f, e, was.w);
      var v :- m.binary(Arith(op), was.v, r.v);
      DoSend(m, obj.v, f.setter(msg), [Val(v)], r.w))
  {
    hide Eval, DoSend;
    AssignForm(m, f, EOpAssign(op, EField(o, msg), e), w);
    assert EOpAssign(op, EField(o, msg), e).lhs == EField(o, msg);
  }

  /** Whatever world it is evaluated in, the last thing `e` records is a call. */
  ghost predicate EndsInCall(m: Sem, f: Env, e: Expr)
  {
    forall w :: Eval(m, f, e, w).Some? ==> LastIsCall(Eval(m, f, e, w).value.w.trace)
  }

  predicate LastIsCall(t: seq<Event>)
  {
    t != [] && t[|t| - 1].Called?
  }

  /** When messages do nothing but leave their record: the access message stands between the call on the
      right-hand side and the assign message if and only if the reference form is used. */
  lemma FieldUpdateTrace(m: Sem, f: Env, op: ArithOp, o: Expr, msg: U16, e: Expr, w: World)
    requires Quiet(m) && EndsInCall(m, f, e) && Eval(m, f, EOpAssign(op, EField(o, msg), e), w).Some?
    ensures var t := Eval(m, f, EOpAssign(op, EField(o, msg), e), w).value.w.trace;
      |t| >= 2 && t[|t| - 1].Sent? && (t[|t| - 2].Sent? <==> f.harbour && f.extopt)
  {
    hide Eval, DoSend, Quiet;
    FieldUpdateOrder(m, f, op, o, msg, e, w);
    var obj := Eval(m, f, o, w).value;
    if f.harbour && f.extopt {
      var r := Eval(m, f, e, obj.w).value;
      var was := DoSend(m, obj.v, m.getter(f.setter(msg)), [], r.w).value;
      QuietSend(m, obj.v, m.getter(f.setter(msg)), [], r.w);
      QuietSend(m, obj.v, f.setter(msg), [Val(m.binary(Arith(op), was.v, r.v).value)], was.w);
    } else {
      var again := if f.harbour then obj else Eval(m, f, o, obj.w).value;
      var was := DoSend(m, again.v, msg, [], again.w).value;
      var r := Eval(m, f, e, was.w).value;
      QuietSend(m, obj.v, f.setter(msg), [Val(m.binary(Arith(op), was.v, r.v).value)], r.w);
    }
  }

  /** `++o:msg` and `--o:msg`: with the extended optimisations, in strict mode too, the object is
      evaluated once and the field read through the reference; otherwise as for `op=`. */
  lemma FieldPreOrder(m: Sem, f: Env, inc: bool, o: Expr, msg: U16, w: World)
    ensures f.extopt ==>
      Eval(m, f, EStep(true, inc, EField(o, msg)), w) == (
      var obj :- Eval(m, f, o, w);
      var was :- DoSend(m, obj.v, m.getter(f.setter(msg)), [], obj.w);
      var v :- m.unary(StepOp(inc), was.v);
      var put :- DoSend(m, obj.v, f.setter(msg), [Val(v)], was.w);
      Some(Result(v, put.w)))
    ensures !f.extopt ==>
      Eval(m, f, EStep(true, inc, EField(o, msg)), w) == (
      var obj :- Eval(m, f, o, w);
      var again :- if f.harbour then Some(obj) else Eval(m, f, o, obj.w);
      var was :- DoSend(m, again.v, msg, [], again.w);
      var v :- m.unary(StepOp(inc), was.v);
      DoSend(m, obj.v, f.setter(msg), [Val(v)], was.w))
  {
    hide Eval, DoSend;
    AssignForm(m, f, EStep(true, inc, EField(o, msg)), w);
    assert EStep(true, inc, EField(o, msg)).lhs == EField(o, msg);
  }

  /** `o:msg++` and `o:msg--`: the value is the first one read. Through the reference the field is read
      a second time to be stepped; strict mode without the extended optimisations begins all over. */
  lemma FieldPostOrder(m: Sem, f: Env, inc: bool, o: Expr, msg: U16, w: World)
    ensures f.extopt ==>
      Eval(m, f, EStep(false, inc, EField(o, msg)), w) == (
      var obj :- Eval(m, f, o, w);
      var first :- DoSend(m, obj.v, m.getter(f.setter(msg)), [], obj.w);
      var was :- DoSend(m, obj.v, m.getter(f.setter(msg)), [], first.w);
      var v :- m.unary(StepOp(inc), was.v);
      var put :- DoSend(m, obj.v, f.setter(msg), [Val(v)], was.w);
      Some(Result(first.v, put.w)))
    ensures !f.extopt && f.harbour ==>
      Eval(m, f, EStep(false, inc, EField(o, msg)), w) == (
      var obj :- Eval(m, f, o, w);
      var first :- DoSend(m, obj.v, msg, [], obj.w);
      var v :- m.unary(StepOp(inc), first.v);
      var put :- DoSend(m, obj.v, f.setter(msg), [Val(v)], first.w);
      Some(Result(first.v, put.w)))
    ensures !f.extopt && !f.harbour ==>
      Eval(m, f, EStep(false, inc, EField(o, msg)), w) == (
      var early :- Eval(m, f, o, w);
      var first :- DoSend(m, early.v, msg, [], early.w);
      var r :- Eval(m, f, EStep(true, inc, EField(o, msg)), first.w);
      Some(Result(first.v, r.w)))
  {
    hide Eval, DoSend;
    var e := EStep(false, inc, EField(o, msg));
    AssignForm(m, f, e, w);
    MessageForm(m, f, e.lhs, w);
    assert e.lhs == EField(o, msg);
    var first := Eval(m, f, e.lhs, w);
    if first.Some? && !f.extopt && !f.harbour {
      SamePre(m, f, inc, o, msg, first.value.w);
    }
  }

  lemma SamePre(m: Sem, f: Env, inc: bool, o: Expr, msg: U16, w: World)
    ensures Eval(m, f, EStep(true, inc, EField(o, msg)), w) == EvalPre(m, f, EStep(false, inc, EField(o, msg)), w)
  {
    hide Eval, DoSend;
    AssignForm(m, f, EStep(true, inc, EField(o, msg)), w);
  }

  // ----- variables -----

  /** `x op= e` reads the variable after `e` if it is neither a field nor undeclared and the mode is not
      strict, and before `e` otherwise. */
  lemma VariableUpdateOrder(m: Sem, f: Env, op: ArithOp, x: Var, e: Expr, w: World)
    ensures f.harbour && !x.FieldVar? && !x.Undeclared? ==>
      Eval(m, f, EOpAssign(op, EVar(x), e), w) == (
      var first :- ReadVar(w, x);
      var r :- Eval(m, f, e, w);
      var was :- ReadVar(r.w, x);
      var v :- m.binary(Arith(op), was, r.v);
      var w' :- WriteVar(r.w, x, v);
      Some(Result(v, w')))
    ensures !f.harbour || x.FieldVar? || x.Undeclared? ==>
      Eval(m, f, EOpAssign(op, EVar(x), e), w) == (
      var was :- ReadVar(w, x);
      var r :- Eval(m, f, e, w);
      var v :- m.binary(Arith(op), was, r.v);
      var w' :- WriteVar(r.w, x, v);
      Some(Result(v, w')))
  {
    hide Eval, CellOf;
    var d := EOpAssign(op, EVar(x), e);
    VarValue(m, f, x, w);
    if f.harbour && !x.FieldVar? && !x.Undeclared? {
      DirectCell(x, w);
      CompoundValue(m, f, op, x, e, w);
      var r := Eval(m, f, e, w);
      if r.Some? {
        DirectCell(x, r.value.w);
      }
    } else {
      hide ReadVar, WriteVar;
      AssignForm(m, f, d, w);
      assert d.lhs == EVar(x) && forall v, w' :: Assign(m, f, EVar(x), v, w') == WriteVar(w', x, v);
    }
  }

  /** So `x += ( x := 5 )` with x = 1 gives 10 for a local variable, and 6 in strict mode. */
  lemma UpdateSeesAssignment(m0: Sem, f: Env, w: World)
    requires Get(w, LocalCell(1)) == Some(Num(1))
    ensures var m, e := Arithmetic.WithArithmetic(m0), EAssign(EVar(Local(1)), ENumber(5));
      var r := Eval(m, f, EOpAssign(Plus, EVar(Local(1)), e), w);
      r.Some? && r.value.v == (if f.harbour then Num(10) else Num(6))
  {
    hide Eval, Arithmetic.WithArithmetic;
    var m, e := Arithmetic.WithArithmetic(m0), EAssign(EVar(Local(1)), ENumber(5));
    VariableUpdateOrder(m, f, Plus, Local(1), e, w);
    AssignForm(m, f, e, w);
    LiteralFive(m, f, w);
    SumsOf(m0);
    assert forall v, w' :: Assign(m, f, EVar(Local(1)), v, w') == WriteVar(w', Local(1), v);
  }

  lemma LiteralFive(m: Sem, f: Env, w: World)
    ensures Eval(m, f, ENumber(5), w) == Some(Result(Num(5), w))
  {
  }

  lemma SumsOf(m0: Sem)
    ensures var m := Arithmetic.WithArithmetic(m0);
      m.binary(Arith(Plus), Num(1), Num(5)) == Some(Num(6)) && m.binary(Arith(Plus), Num(5), Num(5)) == Some(Num(10))
  {
    hide Arithmetic.AddInts;
    Arithmetic.OverflowDetected(1, 5);
    Arithmetic.OverflowDetected(5, 5);
    assert forall a, b :: Arithmetic.WithArithmetic(m0).binary(Arith(Plus), a, b) == Arithmetic.Plus(a, b);
  }

  // ----- elements -----

  /** In strict mode array and index of `a[ i ] op= e` are evaluated twice, the old value before `e`. */
  lemma ElementUpdateStrict(m: Sem, f: Env, op: ArithOp, a: Expr, i: Expr, e: Expr, w: World)
    requires !f.harbour
    ensures Eval(m, f, EOpAssign(op, EIndex(a, i), e), w) == (
      var was :- Eval(m, f, EIndex(a, i), w);
      var r :- Eval(m, f, e, was.w);
      var v :- m.binary(Arith(op), was.v, r.v);
      var p :- Place(m, f, EIndex(a, i), r.w);
      var w' :- Store(m, p.loc, v, p.w);
      Some(Result(v, w')))
  {
    hide Eval, Place, Store;
    AssignForm(m, f, EOpAssign(op, EIndex(a, i), e), w);
    assert EOpAssign(op, EIndex(a, i), e).lhs == EIndex(a, i);
    assert forall v, w' :: Assign(m, f, EIndex(a, i), v, w') == (var p :- Place(m, f, EIndex(a, i), w'); Store(m, p.loc, v, p.w));
  }

  /** The array of a written element, held by a variable: it is read before the index is evaluated, but
      after it where strings count as arrays. */
  lemma ArrayReadWhen(m: Sem, f: Env, x: Var, i: Expr, w: World)
    requires HasCell(x)
    ensures !f.arrstr ==>
      Place(m, f, EIndex(EVar(x), i), w) == (
      var a :- ReadVar(w, x);
      var k :- Eval(m, f, i, w);
      var loc :- ElementLoc(k.w, a, k.v);
      Some(Placed(loc, k.w)))
    ensures f.arrstr ==>
      Place(m, f, EIndex(EVar(x), i), w) == (
      var first :- Get(w, CellOf(x));
      var k :- Eval(m, f, i, w);
      var a :- Get(k.w, CellOf(x));
      var loc :- ElementLoc(k.w, a, k.v);
      Some(Placed(loc, k.w)))
  {
    hide Eval, ReadVar, CellOf, ElementLoc;
    VarValue(m, f, x, w);
    VarPlace(m, f, x, w);
  }

  /** The same for an array that is itself an element or a field. */
  lemma NestedArrayWhen(m: Sem, f: Env, b: Expr, i: Expr, w: World)
    requires b.EIndex? || b.EField?
    ensures !f.arrstr ==>
      Place(m, f, EIndex(b, i), w) == (
      var a :- Eval(m, f, b, w);
      var k :- Eval(m, f, i, a.w);
      var loc :- ElementLoc(k.w, a.v, k.v);
      Some(Placed(loc, k.w)))
    ensures f.arrstr ==>
      Place(m, f, EIndex(b, i), w) == (
      var p :- Place(m, f, b, w);
      var k :- Eval(m, f, i, p.w);
      var a :- Deref(m, p.loc, k.w);
      var loc :- ElementLoc(a.w, a.v, k.v);
      Some(Placed(loc, a.w)))
  {
    hide Eval, ElementLoc, Deref;
  }
}
