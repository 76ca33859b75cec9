/** Every operand the code generator emits is in range, so only a jump can be too long, and what the
    buffer then holds runs as the expression says. */
module Operands {
  import opened Wrappers
  import opened Bytes
  import opened Runtime
  import opened Pcode
  import opened Asm
  import opened Expr
  import opened Compile
  import opened Correct
  import opened CodeBuffer

  lemma Ranges()
    ensures Pow256(1) == 0x100 && Pow256(2) == 0x10000 && Pow256(4) == 0x1_0000_0000
    ensures Pow256(8) == 0x1_0000_0000_0000_0000
  {
    assert Pow256(4) == 256 * (256 * Pow256(2));
    assert Pow256(6) == 256 * (256 * Pow256(4));
  }

  lemma NumberFits(n: S64)
    ensures OperandsFit(PushNumber(n))
  {
    hide Pow256;
    Ranges();
  }

  lemma PushVarFits(f: Env, x: Var)
    ensures OperandsFit(PushVar(f, x))
  {
    hide Pow256;
    Ranges();
  }

  lemma PopVarFits(f: Env, x: Var)
    ensures OperandsFit(PopVar(f, x))
  {
    hide Pow256;
    Ranges();
  }

  lemma RefVarFits(x: Var)
    ensures OperandsFit(RefVar(x))
  {
    hide Pow256;
    Ranges();
  }

  lemma AddIntFits(f: Env, e: Expr)
    requires e.EOpAssign? && AddsInt(f, e)
    ensures OperandsFit(AddInt(f, e))
  {
    hide Pow256;
    Ranges();
  }

  lemma WordsFit(x: U16)
    ensures OperandsFit(Op1(OMessage, x)) && OperandsFit(Op1(OPushFuncSym, x)) && OperandsFit(Op1(OArrayGen, x))
    ensures OperandsFit(if x > 255 then Op1(OPushSym, x) else Op1(OPushSymNear, x))
  {
    hide Pow256;
    Ranges();
  }

  lemma CountsFit(x: U16)
    ensures OperandsFit(Counted(OFunctionShort, OFunction, x)) && OperandsFit(Counted(ODoShort, ODo, x))
    ensures OperandsFit(Counted(OSendShort, OSend, x))
  {
    hide Pow256;
    Ranges();
  }

  lemma SmallFit()
    ensures OperandsFit(Op1(OSwap, 0)) && OperandsFit(Op1(OSwap, 1)) && OperandsFit(Op1(OSwap, 2))
    ensures OperandsFit(Op1(OSendShort, 0)) && OperandsFit(Op1(OSendShort, 1))
  {
    hide Pow256;
    Ranges();
  }

  lemma LocalFits(inc: bool, p: LocalPos)
    ensures OperandsFit(Op1(OLocalStep(inc), p)) && OperandsFit(Op1(OLocalIncPush, p))
  {
    hide Pow256;
    Ranges();
  }

  lemma PlainFit(op: Op)
    requires Plain(op)
    ensures OperandsFit(Op0(op))
  {
  }

  /** Instructions without operands, and those with a constant one. */
  lemma AtomsFit()
    ensures forall op :: Plain(op) ==> OperandsFit(Op0(op))
    ensures OperandsFit(Op1(OSwap, 0)) && OperandsFit(Op1(OSwap, 1)) && OperandsFit(Op1(OSwap, 2))
    ensures OperandsFit(Op1(OSendShort, 0)) && OperandsFit(Op1(OSendShort, 1))
  {
    hide Plain;
    forall op | Plain(op)
      ensures OperandsFit(Op0(op))
    {
      PlainFit(op);
    }
    SmallFit();
  }

  lemma Fit4(a: Asm, b: Asm, c: Asm, d: Asm)
    requires OperandsFit(a) && OperandsFit(b) && OperandsFit(c) && OperandsFit(d)
    ensures OperandsFit(Cat(a, Cat(b, Cat(c, d))))
  {
    hide Fits;
    assert OperandsFit(Cat(c, d));
  }

  lemma Fit5(a: Asm, b: Asm, c: Asm, d: Asm, e: Asm)
    requires OperandsFit(a) && OperandsFit(b) && OperandsFit(c) && OperandsFit(d) && OperandsFit(e)
    ensures OperandsFit(Cat(a, Cat(b, Cat(c, Cat(d, e)))))
  {
    hide Fits;
    Fit4(b, c, d, e);
  }

  /** Whatever may be pushed as an argument is encoded within range. */
  lemma {:induction false} PushFits(f: Env, e: Expr)
    requires IsArg(f, e)
    ensures OperandsFit(Push(f, e))
    decreases e, 4
  {
    hide Fits, Plain, OneByte, TwoBytes, Op0, Op1, Counted;
    Widths();
    AtomsFit();
    match e
    case ENil =>
    case ELogical(_) =>
    case ENumber(n) => NumberFits(n);
    case EVar(x) => PushVarFits(f, x);
    case ERef(t) => RefFits(f, t);
    case EIif(c, t, n) => ValueFits(f, c); PushFits(f, t); PushFits(f, n);
    case EList(es) => LastFits(f, es);
    case EArray(es) => ValuesAreArgs(f, es); AllFit(f, es); WordsFit(Len(es));
    case ECall(_, _) => CallFits(f, e);
    case EMethod(_, _, _) => CallFits(f, e);
    case EAliasSym(s) => WordsFit(s);
    case EAssign(l, r) => AssignFits(f, e);
    case EOpAssign(_, l, r) => UpdateFits(f, e);
    case EStep(_, _, l) => StepFits(f, e);
    case EAnd(l, r) => ShortcutFits(f, l, r, e);
    case EOr(l, r) => ShortcutFits(f, l, r, e);
    case _ => OperatorFits(f, e);
  }

  lemma {:induction false} OperatorFits(f: Env, e: Expr)
    requires (e.EIndex? || e.EField? || e.EAliased? || e.ENot? || e.ENegate? || e.EBin?) && IsValue(f, e)
    ensures OperandsFit(Push(f, e))
    decreases e, 3
  {
    hide Fits, Plain, OneByte, TwoBytes, Op0, Op1, Counted;
    Widths();
    AtomsFit();
    match e
    case EIndex(a, i) => ValueFits(f, a); ValueFits(f, i);
    case EField(o, msg) => ValueFits(f, o); WordsFit(msg);
    case EAliased(a, b) =>
      ValueFits(f, a);
      ValueFits(f, b);
      Fit5(Op0(OPushAlias), Push(f, a), Op0(OPopAlias), Push(f, b), Op0(OSwapAlias));
    case ENot(l) => ValueFits(f, l);
    case ENegate(l) => ValueFits(f, l);
    case EBin(_, l, r) => ValueFits(f, l); ValueFits(f, r);
  }

  lemma {:induction false} CallFits(f: Env, e: Expr)
    requires (e.ECall? || e.EMethod?) && IsValue(f, e)
    ensures OperandsFit(Push(f, e))
    decreases e, 3
  {
    hide Fits, Op0, Op1, Counted;
    AllFit(f, e.args);
    CountsFit(Len(e.args));
    if e.ECall? {
      WordsFit(e.f);
    } else {
      ValueFits(f, e.obj);
      WordsFit(e.msg);
      Fit4(Op1(OMessage, e.msg), Push(f, e.obj), PushAll(f, e.args), Counted(OSendShort, OSend, Len(e.args)));
    }
  }

  lemma {:induction false} ShortcutFits(f: Env, l: Expr, r: Expr, e: Expr)
    requires (e == EAnd(l, r) || e == EOr(l, r)) && IsValue(f, e)
    ensures OperandsFit(Push(f, e))
    decreases e, 3
  {
    hide Fits, Plain, OneByte, TwoBytes, Op0, Op1, Counted;
    Widths();
    AtomsFit();
    ValueFits(f, l);
    ValueFits(f, r);
    var rest := Cat(Op0(OPop), Push(f, r));
    assert OperandsFit(rest);
    assert OperandsFit(Cat(Op0(ODuplicate), When(rest))) by { assert OperandsFit(When(rest)); }
    assert OperandsFit(Cat(Op0(ODuplicate), Unless(rest))) by { assert OperandsFit(Unless(rest)); }
  }

  lemma {:induction false} ValueFits(f: Env, e: Expr)
    requires IsValue(f, e)
    ensures OperandsFit(Push(f, e))
    decreases e, 5
  {
    hide *;
    ValueIsArg(f, e);
    PushFits(f, e);
  }

  lemma {:induction false} LastFits(f: Env, es: Exprs)
    requires AllValues(f, es)
    ensures OperandsFit(PushLast(f, es))
    decreases es, 0
  {
    hide Push, Eff, IsValue;
    if es.More? {
      ValueFits(f, es.head);
      EffFits(f, es.head);
      LastFits(f, es.tail);
    }
  }

  lemma {:induction false} AllFit(f: Env, es: Exprs)
    requires AllArgs(f, es)
    ensures OperandsFit(PushAll(f, es))
    decreases es, 0
  {
    hide Push, Eff, IsArg;
    if es.More? {
      PushFits(f, es.head);
      AllFit(f, es.tail);
    }
  }

  lemma {:induction false} TargetFits(f: Env, l: Expr)
    requires (l.EField? || l.EMethod?) && IsValue(f, l.obj)
    ensures OperandsFit(Target(f, l)) && (l.EField? ==> OperandsFit(GetForUpdate(f, l)))
    decreases l, 0
  {
    hide Fits, Plain, OneByte, TwoBytes, Op0, Op1, Counted, Push, IsValue;
    Widths();
    AtomsFit();
    WordsFit(l.msg);
    WordsFit(f.setter(l.msg));
    ValueFits(f, l.obj);
    Fit5(Target(f, l), Op0(ODuplicate), Op1(OMessage, l.msg), Op1(OSwap, 0), Op1(OSendShort, 0));
    Fit4(Target(f, l), Op1(OMessage, l.msg), Push(f, l.obj), Op1(OSendShort, 0));
  }

  lemma {:induction false} AssignFits(f: Env, e: Expr)
    requires e.EAssign? && IsValue(f, e)
    ensures OperandsFit(Push(f, e)) && OperandsFit(Eff(f, e))
    decreases e, 2
  {
    hide Fits, Plain, OneByte, TwoBytes, Op0, Op1, Counted, Pop, IsLvalue;
    Widths();
    AtomsFit();
    ValueFits(f, e.rhs);
    if e.lhs.EField? {
      FieldObject(f, e.lhs);
      ValueFits(f, e.lhs.obj);
      WordsFit(f.setter(e.lhs.msg));
      Fit4(Op1(OMessage, f.setter(e.lhs.msg)), Push(f, e.lhs.obj), Push(f, e.rhs), Op1(OSendShort, 1));
    } else {
      PopFits(f, e.lhs);
    }
  }

  lemma FieldObject(f: Env, l: Expr)
    requires l.EField? && IsLvalue(f, l)
    ensures IsValue(f, l.obj)
  {
  }

  lemma {:induction false} UpdateFits(f: Env, e: Expr)
    requires e.EOpAssign? && IsValue(f, e)
    ensures OperandsFit(PushOpAssign(f, e)) && OperandsFit(EffOpAssign(f, e))
    decreases e, 2
  {
    hide Fits, Plain, OneByte, TwoBytes, Op0, Op1, Counted, Push, Pop, Ref, GetForUpdate;
    Widths();
    AtomsFit();
    ValueFits(f, e.lhs);
    ValueFits(f, e.rhs);
    PopFits(f, e.lhs);
    if AddsInt(f, e) {
      AddIntFits(f, e);
    } else if UpdatesInPlace(f, e.lhs) {
      RefFits(f, e.lhs);
    } else if e.lhs.EField? {
      TargetFits(f, e.lhs);
      Fit4(GetForUpdate(f, e.lhs), Push(f, e.rhs), Op0(OBin(Arith(e.aop))), Op1(OSendShort, 1));
      UpdateForm(f, e);
    } else {
      Fit5(Push(f, e.lhs), Push(f, e.rhs), Op0(OBin(Arith(e.aop))), Op0(ODuplicate), Pop(f, e.lhs));
      Fit4(Push(f, e.lhs), Push(f, e.rhs), Op0(OBin(Arith(e.aop))), Pop(f, e.lhs));
    }
  }

  lemma UpdateForm(f: Env, e: Expr)
    requires e.EOpAssign?
    ensures Push(f, e) == PushOpAssign(f, e)
  {
  }

  lemma {:induction false} StepFits(f: Env, e: Expr)
    requires e.EStep? && IsValue(f, e)
    ensures OperandsFit(PushPre(f, e)) && OperandsFit(PushPost(f, e)) && OperandsFit(EffStep(f, e))
    decreases e, 2
  {
    hide Fits, Plain, OneByte, TwoBytes, Op0, Op1, Counted, Push, Pop, Ref, GetForUpdate;
    Widths();
    AtomsFit();
    ValueFits(f, e.lhs);
    PopFits(f, e.lhs);
    if e.lhs.EVar? && e.lhs.x.Local? {
      LocalFits(e.inc, e.lhs.x.lpos);
    }
    if StepsInPlace(f, e.lhs) {
      RefFits(f, e.lhs);
    }
    var step := Op0(OUn(StepOp(e.inc)));
    Fit4(Push(f, e.lhs), step, Op0(ODuplicate), Pop(f, e.lhs));
    Fit4(Push(f, e.lhs), Op0(ODuplicate), step, Pop(f, e.lhs));
    if e.lhs.EField? {
      TargetFits(f, e.lhs);
      Fit5(Op0(ODuplicate), Op1(OSwap, 2), step, Op1(OSendShort, 1), Op0(OPop));
      Fit5(Push(f, e.lhs), GetForUpdate(f, e.lhs), step, Op1(OSendShort, 1), Op0(OPop));
    }
  }

  lemma {:induction false} RefFits(f: Env, e: Expr)
    requires IsPlace(f, e)
    ensures OperandsFit(Ref(f, e))
    decreases e, 3
  {
    hide Fits, Plain, OneByte, TwoBytes, Op0, Op1, Counted, Push, Target;
    Widths();
    AtomsFit();
    match e
    case EVar(x) => RefVarFits(x);
    case EIndex(a, i) => BaseFits(f, a); ValueFits(f, i);
    case EField(o, _) => TargetFits(f, e);
    case EMethod(o, _, _) => TargetFits(f, e);
    case ERef(t) => RefFits(f, t);
  }

  lemma {:induction false} BaseFits(f: Env, e: Expr)
    requires IsBase(f, e)
    ensures OperandsFit(PushBase(f, e))
    decreases e, 6
  {
    hide Fits, Plain, OneByte, TwoBytes, Op0, Op1, Counted, Push, Ref, IsValue, IsPlace;
    if ByRef(f, e) {
      RefFits(f, e);
    } else {
      ValueFits(f, e);
    }
  }

  lemma {:induction false} PopFits(f: Env, l: Expr)
    requires IsLvalue(f, l)
    ensures OperandsFit(Pop(f, l))
    decreases l, 7
  {
    hide Fits, Plain, OneByte, TwoBytes, Op0, Op1, Counted, Push, Target, PushBase;
    Widths();
    AtomsFit();
    match l
    case EVar(x) => PopVarFits(f, x);
    case EIndex(a, i) => BaseFits(f, a); ValueFits(f, i);
    case EField(o, _) => TargetFits(f, l);
    case EIif(c, t, n) => ValueFits(f, c); PopFits(f, t); PopFits(f, n);
  }

  lemma {:induction false} EffFits(f: Env, e: Expr)
    requires IsValue(f, e)
    ensures OperandsFit(Eff(f, e))
    decreases e, 8
  {
    hide Fits, Plain, OneByte, TwoBytes, Op0, Op1, Counted, Push, Pop, Ref, Branch;
    Widths();
    AtomsFit();
    ValueFits(f, e);
    match e
    case EIif(c, t, n) =>
      ValueFits(f, c);
      EffFits(f, t);
      EffFits(f, n);
      BranchFits(Eff(f, t), Eff(f, n));
    case EList(es) => EffAllFit(f, es);
    case EArray(es) => EffAllFit(f, es);
    case EIndex(a, i) => EffFits(f, a); EffFits(f, i);
    case ECall(g, es) => AllFit(f, es); WordsFit(g); CountsFit(Len(es));
    case EAliased(a, b) =>
      ValueFits(f, a);
      EffFits(f, b);
      Fit5(Op0(OPushAlias), Push(f, a), Op0(OPopAlias), Eff(f, b), Op0(OPopAlias));
    case EAssign(_, _) => AssignFits(f, e);
    case EOpAssign(_, _, _) => UpdateFits(f, e);
    case EStep(_, _, _) => StepFits(f, e);
    case EAnd(l, r) => ValueFits(f, l); EffFits(f, r);
    case EOr(l, r) => ValueFits(f, l); EffFits(f, r);
    case ENot(l) => EffFits(f, l);
    case ENegate(l) => EffFits(f, l);
    case EBin(_, l, r) => EffFits(f, l); EffFits(f, r);
    case _ =>
  }

  lemma BranchFits(yes: Asm, no: Asm)
    requires OperandsFit(yes) && OperandsFit(no)
    ensures OperandsFit(Branch(yes, no))
  {
  }

  lemma {:induction false} EffAllFit(f: Env, es: Exprs)
    requires AllValues(f, es)
    ensures OperandsFit(EffAll(f, es))
    decreases es, 0
  {
    hide Eff, IsValue;
    if es.More? {
      EffFits(f, es.head);
      EffAllFit(f, es.tail);
    }
  }

  // ----- from the buffer to the run -----

  lemma EmittedAt(s: Snap, a: Asm, t: Snap, rest: seq<byte>)
    requires Emits(s, a, t) && !t.fatal
    ensures JumpsFit(a) && At(t.bytes + rest, |s.bytes|, CodeOf(a)) && |t.bytes| == |s.bytes| + |CodeOf(a)|
  {
    hide CodeOf, JumpsFit;
  }

  /** Unless a jump was reported too long, the bytes the handler left in the buffer push the value
      of the expression, whatever stands before and whatever is emitted later. */
  lemma BufferRuns(m: Sem, f: Env, e: Expr, s: Snap, t: Snap, rest: seq<byte>, st: State)
    requires Lawful(m) && IsValue(f, e) && Emits(s, Push(f, e), t) && !t.fatal
    ensures Yields(m, t.bytes + rest, Config(|s.bytes|, st), At2(|t.bytes|, Ret(st.stack, Eval(m, f, e, st.w))))
  {
    hide *;
    EmittedAt(s, Push(f, e), t, rest);
    ValueFits(f, e);
    SoundParts(Push(f, e));
    CompilerCorrect(m, f, e, t.bytes + rest, |s.bytes|, st);
  }

  /** The same for code emitted for its effect. */
  lemma BufferActs(m: Sem, f: Env, e: Expr, s: Snap, t: Snap, rest: seq<byte>, st: State)
    requires Lawful(m) && IsValue(f, e) && Emits(s, Eff(f, e), t) && !t.fatal
    ensures Yields(m, t.bytes + rest, Config(|s.bytes|, st), At2(|t.bytes|, Done(st.stack, Effect(m, f, e, st.w))))
  {
    hide *;
    EmittedAt(s, Eff(f, e), t, rest);
    EffFits(f, e);
    SoundParts(Eff(f, e));
    EffectCorrect(m, f, e, t.bytes + rest, |s.bytes|, st);
  }

  lemma SoundParts(a: Asm)
    requires OperandsFit(a) && JumpsFit(a)
    ensures Sound(a)
  {
  }
}
