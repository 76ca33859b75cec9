/** The entry points of code generation (include/hbexpra.c): reduce, then emit. */
module Generator {
  import opened Wrappers
  import Bytes
  import opened Runtime
  import opened Pcode
  import opened Asm
  import opened Expr
  import opened Forms
  import opened Likeness
  import opened Reduce
  import opened CodeBuffer
  import C = Compile
  import Correct
  import Operands
  import Emitter
  import M = Mirror
  import S = Storage

  /** hb_compExprGenPush. */
  method GenPush(b: Buffer, f: Env, e: Expr)
    requires b.Valid()
    modifies b, b.code
    ensures b.Valid() && Emits(old(b.now), C.Push(f, Reduced(f, e)), b.now)
  {
    Emitter.Push(b, f, Reduced(f, e));
  }

  /** hb_compExprGenStatement, for the forms that may stand alone: a lone `l = r` is changed to `l := r`
      in place, and whatever there is then is reduced and emitted for its effect. */
  method GenStatement(b: Buffer, f: Env, e: Expr)
    requires b.Valid()
    modifies b, b.code
    ensures b.Valid()
    ensures e.EBin? && e.op == Rel(Equal) ==> Emits(old(b.now), C.Eff(f, Reduced(f, EAssign(e.l, e.r))), b.now)
    ensures !(e.EBin? && e.op == Rel(Equal)) ==> Emits(old(b.now), C.Eff(f, Reduced(f, e)), b.now)
  {
    var statement := e;
    if e.EBin? && e.op == Rel(Equal) {
      statement := EAssign(e.l, e.r);
    }
    statement := Reduced(f, statement);
    Emitter.Eff(b, f, statement);
  }

  /** From the parsed expression to the run: when the reductions are safe, take no literal array
      apart, and no jump was too long, an expression that can be evaluated leaves exactly its value,
      wherever the bytes end up. */
  lemma PushedCodeRuns(m: Sem, f: Env, spared: bool, e: Expr, s: Snap, t: Snap, rest: seq<Bytes.byte>, st: State)
    requires Correct.Lawful(m) && Assumed(m, f, Trust(false, spared)) && Safe(f, Trust(false, spared), e)
        && IsValue(f, Reduced(f, e))
    requires Emits(s, C.Push(f, Reduced(f, e)), t) && !t.fatal && Eval(m, f, e, st.w).Some?
    ensures Yields(m, t.bytes + rest, Config(|s.bytes|, st), At2(|t.bytes|, Ret(st.stack, Eval(m, f, e, st.w))))
  {
    hide Refines, Eval, Effect, EvalArg, Emits, Yields, Correct.Lawful, Assumed, Safe, Reduced;
    ReductionExact(m, f, spared, e);
    Use(m, f, e, Reduced(f, e), st.w);
    Operands.BufferRuns(m, f, Reduced(f, e), s, t, rest, st);
  }

  /** The same for statements. */
  lemma StatementCodeRuns(m: Sem, f: Env, spared: bool, e: Expr, s: Snap, t: Snap, rest: seq<Bytes.byte>, st: State)
    requires Correct.Lawful(m) && Assumed(m, f, Trust(false, spared)) && Safe(f, Trust(false, spared), e)
        && IsValue(f, Reduced(f, e))
    requires Emits(s, C.Eff(f, Reduced(f, e)), t) && !t.fatal && Effect(m, f, e, st.w).Some?
    ensures Yields(m, t.bytes + rest, Config(|s.bytes|, st), At2(|t.bytes|, Done(st.stack, Effect(m, f, e, st.w))))
  {
    hide Refines, Eval, Effect, EvalArg, Emits, Yields, Correct.Lawful, Assumed, Safe, Reduced;
    ReductionExact(m, f, spared, e);
    Use(m, f, e, Reduced(f, e), st.w);
    Operands.BufferActs(m, f, Reduced(f, e), s, t, rest, st);
  }

  /** What is asked of a statement `x = r` before its code may run, given what its generation emitted. */
  ghost predicate Assigning(m: Sem, f: Env, spared: bool, x: Var, r: Expr, s: Snap, t: Snap)
  {
    && Correct.Lawful(m) && Assumed(m, f, Trust(false, spared)) && Safe(f, Trust(false, spared), EAssign(EVar(x), r))
    && IsValue(f, Reduced(f, EAssign(EVar(x), r)))
    && Emits(s, C.Eff(f, Reduced(f, EAssign(EVar(x), r))), t) && !t.fatal
  }

  /** The statement `x = r`, a comparison as it is parsed, assigns: its code leaves the stack alone and
      ends in the world that `r` leaves, with the value of `r` in the variable and in nothing else. */
  lemma EqualityAssigns(m: Sem, f: Env, spared: bool, x: Var, r: Expr, s: Snap, t: Snap, rest: seq<Bytes.byte>, st: State)
    requires Assigning(m, f, spared, x, r, s, t)
    requires Eval(m, f, r, st.w).Some? && (x.FieldVar? ==> ReadVar(Eval(m, f, r, st.w).value.w, x).Some?)
    ensures var v := Eval(m, f, r, st.w).value;
      var w' := v.w.(cells := v.w.cells[S.Written(x, v.w) := v.v]);
      && Yields(m, t.bytes + rest, Config(|s.bytes|, st), At2(|t.bytes|, Some(State(st.stack, w'))))
      && (!S.Hidden(x, v.w) ==> ReadVar(w', x) == Some(v.v))
  {
    hide Refines, Eval, Effect, EvalArg, Emits, Yields, Correct.Lawful, Assumed, Safe, Reduced, ReadVar, WriteVar;
    var e, v := EAssign(EVar(x), r), Eval(m, f, r, st.w).value;
    AssignForm(m, f, e, st.w);
    S.WriteThenRead(x, v.v, v.w);
    assert Assign(m, f, EVar(x), v.v, v.w) == WriteVar(v.w, x, v.v);
    StatementCodeRuns(m, f, spared, e, s, t, rest, st);
  }

  /** With elements taken out of literal arrays as well, what is left is the value of the expression as
      it was written, up to the arrays that were saved. */
  lemma PushedCodeRunsLike(m: Sem, f: Env, spared: bool, e: Expr, s: Snap, t: Snap, rest: seq<Bytes.byte>, st: State)
    requires Correct.Lawful(m) && Assumed(m, f, Trust(true, spared)) && Safe(f, Trust(true, spared), e) && IsValue(f,
        Reduced(f, e))
    requires Emits(s, C.Push(f, Reduced(f, e)), t) && !t.fatal && Eval(m, f, e, st.w).Some? && Closed(st.w)
    ensures Yields(m, t.bytes + rest, Config(|s.bytes|, st), At2(|t.bytes|, Ret(st.stack, Eval(m, f, Reduced(f, e),
        st.w))))
    ensures exists k :: Grows(Identity(st.w), k) && ValueLike(Identity(st.w), Eval(m, f, e, st.w), Eval(m, f,
        Reduced(f, e), st.w), k)
  {
    hide M.Mirrors, Eval, Effect, EvalArg, Emits, Yields, Correct.Lawful, Assumed, Safe, Reduced, LikeWorld, Like,
        Grows;
    ReductionRefines(m, f, Trust(true, spared), e);
    var k := M.UseValue(m, f, true, e, Reduced(f, e), Identity(st.w), st.w, st.w);
    Operands.BufferRuns(m, f, Reduced(f, e), s, t, rest, st);
  }
}
