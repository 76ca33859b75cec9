/** The expression handlers as the compiler runs them: appending to the pcode buffer, emitting jumps
    before their targets are known, patching them, and overwriting an opcode already emitted. Each
    handler is proved to emit exactly what the function of the same name in `Compile` says. */
module Emitter {
  import opened Bytes
  import opened Runtime
  import opened Pcode
  import opened Asm
  import opened Expr
  import C = Compile
  import opened CodeBuffer

  // ----- single instructions -----

  lemma ShortForms(i: Instr)
    ensures Plain(i.op) ==> Encode(i) == [Opcode(i.op)]
    ensures OneByte(i.op) ==> Encode(i) == [Opcode(i.op), i.x % 256]
    ensures TwoBytes(i.op) ==> Encode(i) == [Opcode(i.op), i.x % 256, i.x / 256 % 256]
  {
    hide Opcode;
    assert LE(i.x, 1) == [i.x % 256] + LE(i.x / 256, 0);
    assert LE(i.x, 2) == [i.x % 256] + LE(i.x / 256, 1);
    assert LE(i.x / 256, 1) == [i.x / 256 % 256] + LE(i.x / 256 / 256, 0);
  }

  method Gen(b: Buffer, op: Op)
    requires Plain(op)
    requires b.Valid()
    modifies b, b.code
    ensures b.Valid() && (b.code == old(b.code) || fresh(b.code))
    ensures Emits(old(b.now), Ins(Instr(op, 0, 0)), b.now)
  {
    hide Opcode, OperandFormat;
    ShortForms(Instr(op, 0, 0));
    b.PCode1(Opcode(op));
  }

  method GenByte(b: Buffer, op: Op, x: int)
    requires OneByte(op)
    requires b.Valid()
    modifies b, b.code
    ensures b.Valid() && (b.code == old(b.code) || fresh(b.code))
    ensures Emits(old(b.now), Ins(Instr(op, x, 0)), b.now)
  {
    hide Opcode, OperandFormat;
    ShortForms(Instr(op, x, 0));
    b.PCode2(Opcode(op), x % 256);
  }

  method GenWord(b: Buffer, op: Op, x: int)
    requires TwoBytes(op)
    requires b.Valid()
    modifies b, b.code
    ensures b.Valid() && (b.code == old(b.code) || fresh(b.code))
    ensures Emits(old(b.now), Ins(Instr(op, x, 0)), b.now)
  {
    hide Opcode, OperandFormat;
    ShortForms(Instr(op, x, 0));
    b.PCode3(Opcode(op), x % 256, x / 256 % 256);
  }

  /** Longer operands are laid out in a buffer of their own first. */
  method GenWide(b: Buffer, i: Instr)
    requires b.Valid()
    modifies b, b.code
    ensures b.Valid() && (b.code == old(b.code) || fresh(b.code))
    ensures Emits(old(b.now), Ins(i), b.now)
  {
    hide Opcode, OperandBytes;
    b.PCodeN([Opcode(i.op)] + OperandBytes(i));
  }

  method PushNumber(b: Buffer, n: int)
    requires b.Valid()
    modifies b, b.code
    ensures b.Valid() && (b.code == old(b.code) || fresh(b.code))
    ensures Emits(old(b.now), C.PushNumber(n), b.now)
  {
    hide Emits, CodeOf, JumpsFit, Opcode, Encode, Patched, Branch, b.Valid, Plain, OneByte, TwoBytes;
    Widths();
    if n == 0 {
      Gen(b, OZero);
    } else if n == 1 {
      Gen(b, OOne);
    } else if -0x80 <= n < 0x80 {
      GenByte(b, OPushByte, n);
    } else if -0x8000 <= n < 0x8000 {
      GenWord(b, OPushInt, n);
    } else if -0x8000_0000 <= n < 0x8000_0000 {
      GenWide(b, Instr(OPushLong, n, 0));
    } else {
      GenWide(b, Instr(OPushLongLong, n, 0));
    }
  }

  method PushVar(b: Buffer, f: Env, x: Var)
    requires b.Valid()
    modifies b, b.code
    ensures b.Valid() && (b.code == old(b.code) || fresh(b.code))
    ensures Emits(old(b.now), C.PushVar(f, x), b.now)
  {
    hide Emits, CodeOf, JumpsFit, Opcode, Encode, Patched, Branch, b.Valid, Plain, OneByte, TwoBytes;
    Widths();
    match x
    case Local(p) => if C.IsNear(f, p) { GenByte(b, OPushLocalNear, p); } else { GenWord(b, OPushLocal, p); }
    case BlockLocal(p) => if C.IsNear(f, p) { GenByte(b, OPushLocalNear, p); } else { GenWord(b, OPushLocal, p); }
    case Static(s) => GenWord(b, OPushStatic, s);
    case Memvar(s) => GenWord(b, OPushMemvar, s);
    case FieldVar(s) => GenWord(b, OPushField, s);
    case Undeclared(s) => GenWord(b, OPushVariable, s);
  }

  method PopVar(b: Buffer, f: Env, x: Var)
    requires b.Valid()
    modifies b, b.code
    ensures b.Valid() && (b.code == old(b.code) || fresh(b.code))
    ensures Emits(old(b.now), C.PopVar(f, x), b.now)
  {
    hide Emits, CodeOf, JumpsFit, Opcode, Encode, Patched, Branch, b.Valid, Plain, OneByte, TwoBytes;
    Widths();
    match x
    case Local(p) => if C.IsNear(f, p) { GenByte(b, OPopLocalNear, p); } else { GenWord(b, OPopLocal, p); }
    case BlockLocal(p) => if C.IsNear(f, p) { GenByte(b, OPopLocalNear, p); } else { GenWord(b, OPopLocal, p); }
    case Static(s) => GenWord(b, OPopStatic, s);
    case Memvar(s) => GenWord(b, OPopMemvar, s);
    case FieldVar(s) => GenWord(b, OPopField, s);
    case Undeclared(s) => GenWord(b, OPopVariable, s);
  }

  method RefVar(b: Buffer, x: Var)
    requires b.Valid()
    modifies b, b.code
    ensures b.Valid() && (b.code == old(b.code) || fresh(b.code))
    ensures Emits(old(b.now), C.RefVar(x), b.now)
  {
    hide Emits, CodeOf, JumpsFit, Opcode, Encode, Patched, Branch, b.Valid, Plain, OneByte, TwoBytes;
    Widths();
    EmitsNothing(b.now);
    match x
    case Local(p) => GenWord(b, OPushLocalRef, p);
    case BlockLocal(p) => GenWord(b, OPushLocalRef, p);
    case Static(s) => GenWord(b, OPushStaticRef, s);
    case Memvar(s) => GenWord(b, OPushMemvarRef, s);
    case FieldVar(_) =>
    case Undeclared(s) => GenWord(b, OPushMemvarRef, s);
  }

  method GenCounted(b: Buffer, short: Op, long: Op, n: nat)
    requires OneByte(short) && TwoBytes(long)
    requires b.Valid()
    modifies b, b.code
    ensures b.Valid() && (b.code == old(b.code) || fresh(b.code))
    ensures Emits(old(b.now), C.Counted(short, long, n), b.now)
  {
    hide Emits, CodeOf, JumpsFit, Opcode, Encode, Patched, Branch, b.Valid, Plain, OneByte, TwoBytes;
    Widths();
    if n > 255 {
      GenWord(b, long, n);
    } else {
      GenByte(b, short, n);
    }
  }

  // ----- PUSH_PCODE -----

  /** The forms that are passed on unchanged. */
  lemma PushForms(f: Env, e: Expr)
    ensures e.ENil? ==> C.Push(f, e) == C.Op0(OPushNil)
    ensures e.ELogical? ==> C.Push(f, e) == C.Op0(if e.b then OTrue else OFalse)
    ensures e.ENumber? ==> C.Push(f, e) == C.PushNumber(e.n)
    ensures e.EVar? ==> C.Push(f, e) == C.PushVar(f, e.x)
    ensures e.ERef? ==> C.Push(f, e) == C.Ref(f, e.target)
    ensures e.EList? ==> C.Push(f, e) == C.PushLast(f, e.items)
    ensures e.EAliasSym? ==> C.Push(f, e) == if e.sym > 255 then C.Op1(OPushSym, e.sym) else C.Op1(OPushSymNear, e.sym)
    ensures e.EOpAssign? ==> C.Push(f, e) == C.PushOpAssign(f, e)
    ensures e.EStep? ==> C.Push(f, e) == if e.pre then C.PushPre(f, e) else C.PushPost(f, e)
  {
  }

  lemma EffForms(f: Env, e: Expr)
    ensures e.ENil? || e.ELogical? || e.ENumber? || e.EAliasSym? || e.ERef? ==> C.Eff(f, e) == Skip
    ensures e.EList? || e.EArray? ==> C.Eff(f, e) == C.EffAll(f, e.items)
    ensures e.EAssign? && e.lhs.EField? ==> C.Eff(f, e) == C.Dropped(f, e)
    ensures e.EOpAssign? ==> C.Eff(f, e) == C.EffOpAssign(f, e)
    ensures e.EStep? ==> C.Eff(f, e) == C.EffStep(f, e)
    ensures (e.EAnd? || e.EOr?) && !f.shortcuts ==> C.Eff(f, e) == C.Dropped(f, e)
    ensures e.ENot? || e.ENegate? ==> C.Eff(f, e) == if f.harbour then C.Eff(f, e.e) else C.Dropped(f, e)
    ensures e.EBin? && !f.harbour ==> C.Eff(f, e) == C.Dropped(f, e)
    ensures e.EVar? || e.EField? || e.EMethod? ==> C.Eff(f, e) == C.Dropped(f, e)
  {
  }

  /** The forms with jumps. */
  lemma JumpForms(f: Env, e: Expr)
    ensures e.EIif? ==>
      && C.Push(f, e) == Cat(C.Push(f, e.cond), IfElse(C.Push(f, e.yes), C.Push(f, e.no)))
      && C.Pop(f, e) == Cat(C.Push(f, e.cond), IfElse(C.Pop(f, e.yes), C.Pop(f, e.no)))
      && C.Eff(f, e) == Cat(C.Push(f, e.cond), Branch(C.Eff(f, e.yes), C.Eff(f, e.no)))
    ensures e.EAnd? && f.shortcuts ==>
      && C.Push(f, e) == Cat(C.Push(f, e.l), Cat(C.Op0(ODuplicate), When(Cat(C.Op0(OPop), C.Push(f, e.r)))))
      && C.Eff(f, e) == Cat(C.Push(f, e.l), When(C.Eff(f, e.r)))
    ensures e.EOr? && f.shortcuts ==>
      && C.Push(f, e) == Cat(C.Push(f, e.l), Cat(C.Op0(ODuplicate), Unless(Cat(C.Op0(OPop), C.Push(f, e.r)))))
      && C.Eff(f, e) == Cat(C.Push(f, e.l), Unless(C.Eff(f, e.r)))
    ensures e.ENil? ==> C.Eff(f, e) == Skip
  {
    hide Branch;
  }

  /** Appends code that pushes the value of the expression. */
  method Push(b: Buffer, f: Env, e: Expr)
    requires b.Valid()
    modifies b, b.code
    ensures b.Valid() && (b.code == old(b.code) || fresh(b.code))
    ensures Emits(old(b.now), C.Push(f, e), b.now)
    decreases e, 4
  {
    hide Emits, CodeOf, JumpsFit, Opcode, Encode, Patched, Branch, b.Valid, Plain, OneByte, TwoBytes, C.Push, C.PushNumber;
    Widths();
    PushForms(f, e);
    match e
    case ENil => Gen(b, OPushNil);
    case ELogical(v) => Gen(b, if v then OTrue else OFalse);
    case ENumber(n) => PushNumber(b, n);
    case EVar(x) => PushVar(b, f, x);
    case ERef(t) => Ref(b, f, t);
    case EIif(_, _, _) => PushIif(b, f, e);
    case EList(es) => PushLast(b, f, es);
    case EArray(_) => PushSimple(b, f, e);
    case EIndex(_, _) => PushSimple(b, f, e);
    case ECall(_, _) => PushCall(b, f, e);
    case EField(_, _) => PushSimple(b, f, e);
    case EMethod(_, _, _) => PushMethod(b, f, e);
    case EAliasSym(s) => if s > 255 { GenWord(b, OPushSym, s); } else { GenByte(b, OPushSymNear, s); }
    case EAliased(_, _) => PushAliased(b, f, e);
    case EAssign(_, _) => PushAssign(b, f, e);
    case EOpAssign(_, _, _) => PushOpAssign(b, f, e);
    case EStep(pre, _, _) => if pre { PushPre(b, f, e); } else { PushPost(b, f, e); }
    case EAnd(_, _) => PushLogical(b, f, e);
    case EOr(_, _) => PushLogical(b, f, e);
    case ENot(_) => PushUnary(b, f, e);
    case ENegate(_) => PushUnary(b, f, e);
    case EBin(_, _, _) => PushBin(b, f, e);
  }

  method PushSimple(b: Buffer, f: Env, e: Expr)
    requires e.EArray? || e.EIndex? || e.EField?
    requires b.Valid()
    modifies b, b.code
    ensures b.Valid() && (b.code == old(b.code) || fresh(b.code))
    ensures Emits(old(b.now), C.Push(f, e), b.now)
    decreases e, 3
  {
    hide Emits, CodeOf, JumpsFit, Opcode, Encode, Patched, Branch, b.Valid, Plain, OneByte, TwoBytes;
    Widths();
    match e
    case EArray(es) =>
      ghost var s0 := b.now;
      PushAll(b, f, es);
      ghost var s1 := b.now;
      GenWord(b, OArrayGen, Len(es));
      EmitsCat(s0, C.PushAll(f, es), s1, C.Op1(OArrayGen, Len(es)), b.now);
    case EIndex(a, i) =>
      ghost var s0 := b.now;
      Push(b, f, a);
      ghost var s1 := b.now;
      Push(b, f, i);
      ghost var s2 := b.now;
      Gen(b, OArrayPush);
      Emits3(s0, C.Push(f, a), s1, C.Push(f, i), s2, C.Op0(OArrayPush), b.now);
    case EField(o, msg) =>
      ghost var s0 := b.now;
      GenWord(b, OMessage, msg);
      ghost var s1 := b.now;
      Push(b, f, o);
      ghost var s2 := b.now;
      GenByte(b, OSendShort, 0);
      Emits3(s0, C.Op1(OMessage, msg), s1, C.Push(f, o), s2, C.Op1(OSendShort, 0), b.now);
  }

  method PushCall(b: Buffer, f: Env, e: Expr)
    requires e.ECall?
    requires b.Valid()
    modifies b, b.code
    ensures b.Valid() && (b.code == old(b.code) || fresh(b.code))
    ensures Emits(old(b.now), C.Push(f, e), b.now)
    decreases e, 3
  {
    hide Emits, CodeOf, JumpsFit, Opcode, Encode, Patched, Branch, b.Valid, Plain, OneByte, TwoBytes;
    Widths();
    ghost var s0 := b.now;
    GenWord(b, OPushFuncSym, e.f);
    ghost var s1 := b.now;
    PushAll(b, f, e.args);
    ghost var s2 := b.now;
    GenCounted(b, OFunctionShort, OFunction, Len(e.args));
    Emits3(s0, C.Op1(OPushFuncSym, e.f), s1, C.PushAll(f, e.args), s2, C.Counted(OFunctionShort, OFunction, Len(e.args)), b.now);
  }

  method PushMethod(b: Buffer, f: Env, e: Expr)
    requires e.EMethod?
    requires b.Valid()
    modifies b, b.code
    ensures b.Valid() && (b.code == old(b.code) || fresh(b.code))
    ensures Emits(old(b.now), C.Push(f, e), b.now)
    decreases e, 3
  {
    hide Emits, CodeOf, JumpsFit, Opcode, Encode, Patched, Branch, b.Valid, Plain, OneByte, TwoBytes;
    Widths();
    ghost var s0 := b.now;
    GenWord(b, OMessage, e.msg);
    ghost var s1 := b.now;
    Push(b, f, e.obj);
    ghost var s2 := b.now;
    PushAll(b, f, e.args);
    ghost var s3 := b.now;
    GenCounted(b, OSendShort, OSend, Len(e.args));
    Emits4(s0, C.Op1(OMessage, e.msg), s1, C.Push(f, e.obj), s2, C.PushAll(f, e.args), s3, C.Counted(OSendShort, OSend, Len(e.args)), b.now);
  }

  method PushAliased(b: Buffer, f: Env, e: Expr)
    requires e.EAliased?
    requires b.Valid()
    modifies b, b.code
    ensures b.Valid() && (b.code == old(b.code) || fresh(b.code))
    ensures Emits(old(b.now), C.Push(f, e), b.now)
    decreases e, 3
  {
    hide Emits, CodeOf, JumpsFit, Opcode, Encode, Patched, Branch, b.Valid, Plain, OneByte, TwoBytes;
    Widths();
    ghost var s0 := b.now;
    Gen(b, OPushAlias);
    ghost var s1 := b.now;
    Push(b, f, e.alias);
    ghost var s2 := b.now;
    Gen(b, OPopAlias);
    ghost var s3 := b.now;
    Push(b, f, e.body);
    ghost var s4 := b.now;
    Gen(b, OSwapAlias);
    Emits5(s0, C.Op0(OPushAlias), s1, C.Push(f, e.alias), s2, C.Op0(OPopAlias), s3, C.Push(f, e.body), s4, C.Op0(OSwapAlias), b.now);
  }

  method PushUnary(b: Buffer, f: Env, e: Expr)
    requires e.ENot? || e.ENegate?
    requires b.Valid()
    modifies b, b.code
    ensures b.Valid() && (b.code == old(b.code) || fresh(b.code))
    ensures Emits(old(b.now), C.Push(f, e), b.now)
    decreases e, 3
  {
    hide Emits, CodeOf, JumpsFit, Opcode, Encode, Patched, Branch, b.Valid, Plain, OneByte, TwoBytes;
    Widths();
    var op := if e.ENot? then OUn(Not) else OUn(Negate);
    ghost var s0 := b.now;
    Push(b, f, e.e);
    ghost var s1 := b.now;
    Gen(b, op);
    EmitsCat(s0, C.Push(f, e.e), s1, C.Op0(op), b.now);
  }

  method PushIif(b: Buffer, f: Env, e: Expr)
    requires e.EIif?
    requires b.Valid()
    modifies b, b.code
    ensures b.Valid() && (b.code == old(b.code) || fresh(b.code))
    ensures Emits(old(b.now), C.Push(f, e), b.now)
    decreases e, 3
  {
    hide Emits, CodeOf, JumpsFit, Opcode, Encode, Patched, Branch, b.Valid, Pending, Patch, C.Push, C.Pop, C.Eff, Plain, OneByte, TwoBytes;
    Widths();
    JumpForms(f, e);
    ghost var s0 := b.now;
    Push(b, f, e.cond);
    ghost var s1 := b.now;
    var atFalse := b.GenJump(OJumpFalse);
    ghost var s2 := b.now;
    Push(b, f, e.yes);
    ghost var s3 := b.now;
    EmitsGrows(s2, C.Push(f, e.yes), s3);
    var atEnd := b.GenJump(OJump);
    ghost var s4 := b.now;
    b.JumpHere(atFalse);
    ghost var s5 := b.now;
    Push(b, f, e.no);
    ghost var s6 := b.now;
    EmitsGrows(s5, C.Push(f, e.no), s6);
    b.JumpHere(atEnd);
    IfElseEmits(s1, s2, C.Push(f, e.yes), s3, s4, s5, C.Push(f, e.no), s6, b.now);
    EmitsCat(s0, C.Push(f, e.cond), s1, IfElse(C.Push(f, e.yes), C.Push(f, e.no)), b.now);
  }

  method PushAssign(b: Buffer, f: Env, e: Expr)
    requires e.EAssign?
    requires b.Valid()
    modifies b, b.code
    ensures b.Valid() && (b.code == old(b.code) || fresh(b.code))
    ensures Emits(old(b.now), C.Push(f, e), b.now)
    decreases e, 3
  {
    hide Emits, CodeOf, JumpsFit, Opcode, Encode, Patched, Branch, b.Valid, Plain, OneByte, TwoBytes;
    Widths();
    if e.lhs.EField? {
      ghost var s0 := b.now;
      GenWord(b, OMessage, f.setter(e.lhs.msg));
      ghost var s1 := b.now;
      Push(b, f, e.lhs.obj);
      ghost var s2 := b.now;
      Push(b, f, e.rhs);
      ghost var s3 := b.now;
      GenByte(b, OSendShort, 1);
      Emits4(s0, C.Op1(OMessage, f.setter(e.lhs.msg)), s1, C.Push(f, e.lhs.obj), s2, C.Push(f, e.rhs), s3, C.Op1(OSendShort, 1), b.now);
    } else {
      ghost var s0 := b.now;
      Push(b, f, e.rhs);
      ghost var s1 := b.now;
      Gen(b, OPushUnref);
      ghost var s2 := b.now;
      Pop(b, f, e.lhs);
      Emits3(s0, C.Push(f, e.rhs), s1, C.Op0(OPushUnref), s2, C.Pop(f, e.lhs), b.now);
    }
  }

  method PushLogical(b: Buffer, f: Env, e: Expr)
    requires e.EAnd? || e.EOr?
    requires b.Valid()
    modifies b, b.code
    ensures b.Valid() && (b.code == old(b.code) || fresh(b.code))
    ensures Emits(old(b.now), C.Push(f, e), b.now)
    decreases e, 3
  {
    hide Emits, CodeOf, JumpsFit, Opcode, Encode, Patched, Branch, b.Valid, Plain, OneByte, TwoBytes;
    Widths();
    if f.shortcuts {
      PushShortcut(b, f, e);
    } else {
      var op := if e.EAnd? then OBin(Rel(LogicalAnd)) else OBin(Rel(LogicalOr));
      ghost var s0 := b.now;
      Push(b, f, e.l);
      ghost var s1 := b.now;
      Push(b, f, e.r);
      ghost var s2 := b.now;
      Gen(b, op);
      Emits3(s0, C.Push(f, e.l), s1, C.Push(f, e.r), s2, C.Op0(op), b.now);
    }
  }

  /** The jump is taken on a copy of the first value. */
  method PushShortcut(b: Buffer, f: Env, e: Expr)
    requires (e.EAnd? || e.EOr?) && f.shortcuts
    requires b.Valid()
    modifies b, b.code
    ensures b.Valid() && (b.code == old(b.code) || fresh(b.code))
    ensures Emits(old(b.now), C.Push(f, e), b.now)
    decreases e, 2
  {
    hide Emits, CodeOf, JumpsFit, Opcode, Encode, Patched, Branch, b.Valid, Pending, Patch, C.Push, C.Pop, C.Eff, Plain, OneByte, TwoBytes;
    Widths();
    JumpForms(f, e);
    ghost var s0 := b.now;
    Push(b, f, e.l);
    ghost var s1 := b.now;
    Gen(b, ODuplicate);
    ghost var s2 := b.now;
    var jump := if e.EAnd? then OJumpFalse else OJumpTrue;
    var atEnd := b.GenJump(jump);
    ghost var s3 := b.now;
    PopThenPush(b, f, e.r);
    ghost var s4 := b.now;
    ghost var rest := Cat(C.Op0(OPop), C.Push(f, e.r));
    EmitsGrows(s3, rest, s4);
    b.JumpHere(atEnd);
    OverEmits(s2, jump, s3, rest, s4, b.now);
    Emits3(s0, C.Push(f, e.l), s1, C.Op0(ODuplicate), s2, if e.EAnd? then When(rest) else Unless(rest), b.now);
  }

  method PopThenPush(b: Buffer, f: Env, e: Expr)
    requires b.Valid()
    modifies b, b.code
    ensures b.Valid() && (b.code == old(b.code) || fresh(b.code))
    ensures Emits(old(b.now), Cat(C.Op0(OPop), C.Push(f, e)), b.now)
    decreases e, 5
  {
    hide Emits, CodeOf, JumpsFit, Opcode, Encode, Patched, Branch, b.Valid, Plain, OneByte, TwoBytes;
    Widths();
    ghost var s0 := b.now;
    Gen(b, OPop);
    ghost var s1 := b.now;
    Push(b, f, e);
    EmitsCat(s0, C.Op0(OPop), s1, C.Push(f, e), b.now);
  }

  method PushBin(b: Buffer, f: Env, e: Expr)
    requires e.EBin?
    requires b.Valid()
    modifies b, b.code
    ensures b.Valid() && (b.code == old(b.code) || fresh(b.code))
    ensures Emits(old(b.now), C.Push(f, e), b.now)
    decreases e, 3
  {
    hide Emits, CodeOf, JumpsFit, Opcode, Encode, Patched, Branch, b.Valid, Plain, OneByte, TwoBytes;
    Widths();
    match C.Unit(f, e.op, e.l, e.r)
    case StepRight(inc) =>
      ghost var s0 := b.now;
      Push(b, f, e.r);
      ghost var s1 := b.now;
      Gen(b, OUn(StepOp(inc)));
      EmitsCat(s0, C.Push(f, e.r), s1, C.Op0(OUn(StepOp(inc))), b.now);
    case StepLeft(inc) =>
      ghost var s0 := b.now;
      Push(b, f, e.l);
      ghost var s1 := b.now;
      Gen(b, OUn(StepOp(inc)));
      EmitsCat(s0, C.Push(f, e.l), s1, C.Op0(OUn(StepOp(inc))), b.now);
    case NoStep =>
      ghost var s0 := b.now;
      Push(b, f, e.l);
      ghost var s1 := b.now;
      Push(b, f, e.r);
      ghost var s2 := b.now;
      Gen(b, OBin(e.op));
      Emits3(s0, C.Push(f, e.l), s1, C.Push(f, e.r), s2, C.Op0(OBin(e.op)), b.now);
  }

  /** Walks the list; every expression but the last is evaluated for its effect. */
  method PushLast(b: Buffer, f: Env, es: Exprs)
    requires b.Valid()
    modifies b, b.code
    ensures b.Valid() && (b.code == old(b.code) || fresh(b.code))
    ensures Emits(old(b.now), C.PushLast(f, es), b.now)
    decreases es, 0
  {
    ghost var s0, done := b.now, Skip;
    EmitsNothing(s0);
    NoTail(C.PushLast(f, es));
    var p := es;
    while p.More?
      invariant b.Valid() && (b.code == old(b.code) || fresh(b.code))
      invariant Emits(s0, done, b.now) && Same(Cat(done, C.PushLast(f, p)), C.PushLast(f, es))
      invariant p == es || p < es
      decreases p
    {
      ghost var s1 := b.now;
      if p.tail.More? {
        Eff(b, f, p.head);
        EmitsCat(s0, done, s1, C.Eff(f, p.head), b.now);
        Regroup(done, C.Eff(f, p.head), C.PushLast(f, p.tail));
        done := Cat(done, C.Eff(f, p.head));
      } else {
        Push(b, f, p.head);
        EmitsCat(s0, done, s1, C.Push(f, p.head), b.now);
        done := Cat(done, C.Push(f, p.head));
        NoTail(done);
      }
      p := p.tail;
    }
    NoTail(done);
    EmitsSame(s0, done, C.PushLast(f, es), b.now);
  }

  /** Arguments stay on the stack in the order they are written. */
  method PushAll(b: Buffer, f: Env, es: Exprs)
    requires b.Valid()
    modifies b, b.code
    ensures b.Valid() && (b.code == old(b.code) || fresh(b.code))
    ensures Emits(old(b.now), C.PushAll(f, es), b.now)
    decreases es, 0
  {
    ghost var s0, done := b.now, Skip;
    EmitsNothing(s0);
    NoTail(C.PushAll(f, es));
    var p := es;
    while p.More?
      invariant b.Valid() && (b.code == old(b.code) || fresh(b.code))
      invariant Emits(s0, done, b.now) && Same(Cat(done, C.PushAll(f, p)), C.PushAll(f, es))
      invariant p == es || p < es
      decreases p
    {
      ghost var s1 := b.now;
      Push(b, f, p.head);
      EmitsCat(s0, done, s1, C.Push(f, p.head), b.now);
      Regroup(done, C.Push(f, p.head), C.PushAll(f, p.tail));
      done := Cat(done, C.Push(f, p.head));
      p := p.tail;
    }
    NoTail(done);
    EmitsSame(s0, done, C.PushAll(f, es), b.now);
  }

  method Target(b: Buffer, f: Env, l: Expr)
    requires l.EField? || l.EMethod?
    requires b.Valid()
    modifies b, b.code
    ensures b.Valid() && (b.code == old(b.code) || fresh(b.code))
    ensures Emits(old(b.now), C.Target(f, l), b.now)
    decreases l, 0
  {
    hide Emits, CodeOf, JumpsFit, Opcode, Encode, Patched, Branch, b.Valid, Plain, OneByte, TwoBytes;
    Widths();
    ghost var s0 := b.now;
    GenWord(b, OMessage, f.setter(l.msg));
    ghost var s1 := b.now;
    Push(b, f, l.obj);
    EmitsCat(s0, C.Op1(OMessage, f.setter(l.msg)), s1, C.Push(f, l.obj), b.now);
  }

  method GetForUpdate(b: Buffer, f: Env, l: Expr)
    requires l.EField?
    requires b.Valid()
    modifies b, b.code
    ensures b.Valid() && (b.code == old(b.code) || fresh(b.code))
    ensures Emits(old(b.now), C.GetForUpdate(f, l), b.now)
    decreases l, 1
  {
    hide Emits, CodeOf, JumpsFit, Opcode, Encode, Patched, Branch, b.Valid, Plain, OneByte, TwoBytes;
    Widths();
    if f.harbour {
      ghost var s0 := b.now;
      Target(b, f, l);
      ghost var s1 := b.now;
      Gen(b, ODuplicate);
      ghost var s2 := b.now;
      GenWord(b, OMessage, l.msg);
      ghost var s3 := b.now;
      GenByte(b, OSwap, 0);
      ghost var s4 := b.now;
      GenByte(b, OSendShort, 0);
      Emits5(s0, C.Target(f, l), s1, C.Op0(ODuplicate), s2, C.Op1(OMessage, l.msg), s3, C.Op1(OSwap, 0), s4, C.Op1(OSendShort, 0), b.now);
    } else {
      ghost var s0 := b.now;
      Target(b, f, l);
      ghost var s1 := b.now;
      GenWord(b, OMessage, l.msg);
      ghost var s2 := b.now;
      Push(b, f, l.obj);
      ghost var s3 := b.now;
      GenByte(b, OSendShort, 0);
      Emits4(s0, C.Target(f, l), s1, C.Op1(OMessage, l.msg), s2, C.Push(f, l.obj), s3, C.Op1(OSendShort, 0), b.now);
    }
  }

  method AddInt(b: Buffer, f: Env, e: Expr)
    requires e.EOpAssign? && C.AddsInt(f, e)
    requires b.Valid()
    modifies b, b.code
    ensures b.Valid() && (b.code == old(b.code) || fresh(b.code))
    ensures Emits(old(b.now), C.AddInt(f, e), b.now)
  {
    hide Emits, CodeOf, JumpsFit, Opcode, Encode, Patched, Branch, b.Valid, Plain, OneByte, TwoBytes;
    Widths();
    GenWide(b, Instr(OLocalAddInt, e.lhs.x.lpos, C.Amount(f, e)));
  }

  method PushOpAssign(b: Buffer, f: Env, e: Expr)
    requires e.EOpAssign?
    requires b.Valid()
    modifies b, b.code
    ensures b.Valid() && (b.code == old(b.code) || fresh(b.code))
    ensures Emits(old(b.now), C.PushOpAssign(f, e), b.now)
    decreases e, 3
  {
    hide Emits, CodeOf, JumpsFit, Opcode, Encode, Patched, Branch, b.Valid, Plain, OneByte, TwoBytes;
    Widths();
    if C.AddsInt(f, e) {
      ghost var s0 := b.now;
      AddInt(b, f, e);
      ghost var s1 := b.now;
      Push(b, f, e.lhs);
      EmitsCat(s0, C.AddInt(f, e), s1, C.Push(f, e.lhs), b.now);
    } else if UpdatesInPlace(f, e.lhs) {
      ghost var s0 := b.now;
      Ref(b, f, e.lhs);
      ghost var s1 := b.now;
      Push(b, f, e.rhs);
      ghost var s2 := b.now;
      Gen(b, OOpEq(e.aop));
      Emits3(s0, C.Ref(f, e.lhs), s1, C.Push(f, e.rhs), s2, C.Op0(OOpEq(e.aop)), b.now);
    } else if e.lhs.EField? {
      ghost var s0 := b.now;
      GetForUpdate(b, f, e.lhs);
      ghost var s1 := b.now;
      Push(b, f, e.rhs);
      ghost var s2 := b.now;
      Gen(b, OBin(Arith(e.aop)));
      ghost var s3 := b.now;
      GenByte(b, OSendShort, 1);
      Emits4(s0, C.GetForUpdate(f, e.lhs), s1, C.Push(f, e.rhs), s2, C.Op0(OBin(Arith(e.aop))), s3, C.Op1(OSendShort, 1), b.now);
    } else {
      ghost var s0 := b.now;
      Push(b, f, e.lhs);
      ghost var s1 := b.now;
      Push(b, f, e.rhs);
      ghost var s2 := b.now;
      Gen(b, OBin(Arith(e.aop)));
      ghost var s3 := b.now;
      Gen(b, ODuplicate);
      ghost var s4 := b.now;
      Pop(b, f, e.lhs);
      Emits5(s0, C.Push(f, e.lhs), s1, C.Push(f, e.rhs), s2, C.Op0(OBin(Arith(e.aop))), s3, C.Op0(ODuplicate), s4, C.Pop(f, e.lhs), b.now);
    }
  }

  method PushPre(b: Buffer, f: Env, e: Expr)
    requires e.EStep?
    requires b.Valid()
    modifies b, b.code
    ensures b.Valid() && (b.code == old(b.code) || fresh(b.code))
    ensures Emits(old(b.now), C.PushPre(f, e), b.now)
    decreases e, 3
  {
    hide Emits, CodeOf, JumpsFit, Opcode, Encode, Patched, Branch, b.Valid, Plain, OneByte, TwoBytes;
    Widths();
    if StepsInPlace(f, e.lhs) {
      if e.lhs.EVar? && e.lhs.x.Local? {
        if e.inc {
          GenWord(b, OLocalIncPush, e.lhs.x.lpos);
        } else {
          ghost var s0 := b.now;
          GenWord(b, OLocalStep(false), e.lhs.x.lpos);
          ghost var s1 := b.now;
          Push(b, f, e.lhs);
          EmitsCat(s0, C.Op1(OLocalStep(false), e.lhs.x.lpos), s1, C.Push(f, e.lhs), b.now);
        }
      } else {
        ghost var s0 := b.now;
        Ref(b, f, e.lhs);
        ghost var s1 := b.now;
        Gen(b, OStepEq(e.inc));
        EmitsCat(s0, C.Ref(f, e.lhs), s1, C.Op0(OStepEq(e.inc)), b.now);
      }
    } else if e.lhs.EField? {
      ghost var s0 := b.now;
      GetForUpdate(b, f, e.lhs);
      ghost var s1 := b.now;
      Gen(b, OUn(StepOp(e.inc)));
      ghost var s2 := b.now;
      GenByte(b, OSendShort, 1);
      Emits3(s0, C.GetForUpdate(f, e.lhs), s1, C.Op0(OUn(StepOp(e.inc))), s2, C.Op1(OSendShort, 1), b.now);
    } else {
      ghost var s0 := b.now;
      Push(b, f, e.lhs);
      ghost var s1 := b.now;
      Gen(b, OUn(StepOp(e.inc)));
      ghost var s2 := b.now;
      Gen(b, ODuplicate);
      ghost var s3 := b.now;
      Pop(b, f, e.lhs);
      Emits4(s0, C.Push(f, e.lhs), s1, C.Op0(OUn(StepOp(e.inc))), s2, C.Op0(ODuplicate), s3, C.Pop(f, e.lhs), b.now);
    }
  }

  method PushPost(b: Buffer, f: Env, e: Expr)
    requires e.EStep?
    requires b.Valid()
    modifies b, b.code
    ensures b.Valid() && (b.code == old(b.code) || fresh(b.code))
    ensures Emits(old(b.now), C.PushPost(f, e), b.now)
    decreases e, 3
  {
    hide Emits, CodeOf, JumpsFit, Opcode, Encode, Patched, Branch, b.Valid, Plain, OneByte, TwoBytes;
    Widths();
    if StepsInPlace(f, e.lhs) {
      if e.lhs.EVar? && e.lhs.x.Local? {
        ghost var s0 := b.now;
        Push(b, f, e.lhs);
        ghost var s1 := b.now;
        GenWord(b, OLocalStep(e.inc), e.lhs.x.lpos);
        EmitsCat(s0, C.Push(f, e.lhs), s1, C.Op1(OLocalStep(e.inc), e.lhs.x.lpos), b.now);
      } else {
        ghost var s0 := b.now;
        Ref(b, f, e.lhs);
        ghost var s1 := b.now;
        Gen(b, ODuplUnref);
        ghost var s2 := b.now;
        Gen(b, OStepEqPop(e.inc));
        Emits3(s0, C.Ref(f, e.lhs), s1, C.Op0(ODuplUnref), s2, C.Op0(OStepEqPop(e.inc)), b.now);
      }
    } else if e.lhs.EField? {
      PushFieldPost(b, f, e);
    } else {
      ghost var s0 := b.now;
      Push(b, f, e.lhs);
      ghost var s1 := b.now;
      Gen(b, ODuplicate);
      ghost var s2 := b.now;
      Gen(b, OUn(StepOp(e.inc)));
      ghost var s3 := b.now;
      Pop(b, f, e.lhs);
      Emits4(s0, C.Push(f, e.lhs), s1, C.Op0(ODuplicate), s2, C.Op0(OUn(StepOp(e.inc))), s3, C.Pop(f, e.lhs), b.now);
    }
  }

  method PushFieldPost(b: Buffer, f: Env, e: Expr)
    requires e.EStep? && e.lhs.EField? && !StepsInPlace(f, e.lhs)
    requires b.Valid()
    modifies b, b.code
    ensures b.Valid() && (b.code == old(b.code) || fresh(b.code))
    ensures Emits(old(b.now), C.PushPost(f, e), b.now)
    decreases e, 2
  {
    hide Emits, CodeOf, JumpsFit, Opcode, Encode, Patched, Branch, b.Valid, Plain, OneByte, TwoBytes;
    Widths();
    if f.harbour {
      ghost var s0 := b.now;
      GetForUpdate(b, f, e.lhs);
      ghost var s1 := b.now;
      Gen(b, ODuplicate);
      ghost var s2 := b.now;
      GenByte(b, OSwap, 2);
      ghost var s3 := b.now;
      Gen(b, OUn(StepOp(e.inc)));
      ghost var s4 := b.now;
      GenByte(b, OSendShort, 1);
      ghost var s5 := b.now;
      Gen(b, OPop);
      Emits6(s0, C.GetForUpdate(f, e.lhs), s1, C.Op0(ODuplicate), s2, C.Op1(OSwap, 2), s3, C.Op0(OUn(StepOp(e.inc))), s4, C.Op1(OSendShort, 1), s5, C.Op0(OPop), b.now);
    } else {
      ghost var s0 := b.now;
      Push(b, f, e.lhs);
      ghost var s1 := b.now;
      GetForUpdate(b, f, e.lhs);
      ghost var s2 := b.now;
      Gen(b, OUn(StepOp(e.inc)));
      ghost var s3 := b.now;
      GenByte(b, OSendShort, 1);
      ghost var s4 := b.now;
      Gen(b, OPop);
      Emits5(s0, C.Push(f, e.lhs), s1, C.GetForUpdate(f, e.lhs), s2, C.Op0(OUn(StepOp(e.inc))), s3, C.Op1(OSendShort, 1), s4, C.Op0(OPop), b.now);
    }
  }

  /** Appends code that pushes a reference. */
  method Ref(b: Buffer, f: Env, e: Expr)
    requires b.Valid()
    modifies b, b.code
    ensures b.Valid() && (b.code == old(b.code) || fresh(b.code))
    ensures Emits(old(b.now), C.Ref(f, e), b.now)
    decreases e, 2
  {
    hide Emits, CodeOf, JumpsFit, Opcode, Encode, Patched, Branch, b.Valid, Plain, OneByte, TwoBytes;
    Widths();
    EmitsNothing(b.now);
    match e
    case EVar(x) => RefVar(b, x);
    case EIndex(a, i) =>
      ghost var s0 := b.now;
      PushBase(b, f, a);
      ghost var s1 := b.now;
      Push(b, f, i);
      ghost var s2 := b.now;
      Gen(b, OArrayPushRef);
      Emits3(s0, C.PushBase(f, a), s1, C.Push(f, i), s2, C.Op0(OArrayPushRef), b.now);
    case EField(_, _) => ObjectRef(b, f, e);
    case EMethod(_, _, _) => ObjectRef(b, f, e);
    case ERef(t) => Ref(b, f, t);
    case _ =>
  }

  method ObjectRef(b: Buffer, f: Env, e: Expr)
    requires b.Valid() && (e.EField? || e.EMethod?)
    modifies b, b.code
    ensures b.Valid() && (b.code == old(b.code) || fresh(b.code))
    ensures Emits(old(b.now), C.Ref(f, e), b.now)
    decreases e, 1
  {
    hide Emits, CodeOf, JumpsFit, Opcode, Encode, Patched, Branch, b.Valid, Plain, OneByte, TwoBytes;
    Widths();
    ghost var s0 := b.now;
    Target(b, f, e);
    ghost var s1 := b.now;
    Gen(b, OPushOVarRef);
    EmitsCat(s0, C.Target(f, e), s1, C.Op0(OPushOVarRef), b.now);
  }

  method PushBase(b: Buffer, f: Env, e: Expr)
    requires b.Valid()
    modifies b, b.code
    ensures b.Valid() && (b.code == old(b.code) || fresh(b.code))
    ensures Emits(old(b.now), C.PushBase(f, e), b.now)
    decreases e, 5
  {
    hide Emits, CodeOf, JumpsFit, Opcode, Encode, Patched, Branch, b.Valid, Plain, OneByte, TwoBytes;
    Widths();
    if ByRef(f, e) {
      Ref(b, f, e);
    } else {
      Push(b, f, e);
    }
  }

  // ----- POP_PCODE -----

  /** Appends code that stores the value on top of the stack. */
  method Pop(b: Buffer, f: Env, l: Expr)
    requires b.Valid()
    modifies b, b.code
    ensures b.Valid() && (b.code == old(b.code) || fresh(b.code))
    ensures Emits(old(b.now), C.Pop(f, l), b.now)
    decreases l, 6
  {
    hide Emits, CodeOf, JumpsFit, Opcode, Encode, Patched, Branch, b.Valid, Plain, OneByte, TwoBytes;
    Widths();
    EmitsNothing(b.now);
    match l
    case EVar(x) => PopVar(b, f, x);
    case EIndex(a, i) =>
      ghost var s0 := b.now;
      PushBase(b, f, a);
      ghost var s1 := b.now;
      Push(b, f, i);
      ghost var s2 := b.now;
      Gen(b, OArrayPop);
      Emits3(s0, C.PushBase(f, a), s1, C.Push(f, i), s2, C.Op0(OArrayPop), b.now);
    case EField(_, _) =>
      ghost var s0 := b.now;
      Target(b, f, l);
      ghost var s1 := b.now;
      GenByte(b, OSwap, 1);
      ghost var s2 := b.now;
      GenByte(b, OSwap, 1);
      ghost var s3 := b.now;
      GenByte(b, OSendShort, 1);
      ghost var s4 := b.now;
      Gen(b, OPop);
      Emits5(s0, C.Target(f, l), s1, C.Op1(OSwap, 1), s2, C.Op1(OSwap, 1), s3, C.Op1(OSendShort, 1), s4, C.Op0(OPop), b.now);
    case EIif(_, _, _) => PopIif(b, f, l);
    case _ =>
  }

  method PopIif(b: Buffer, f: Env, e: Expr)
    requires e.EIif?
    requires b.Valid()
    modifies b, b.code
    ensures b.Valid() && (b.code == old(b.code) || fresh(b.code))
    ensures Emits(old(b.now), C.Pop(f, e), b.now)
    decreases e, 5
  {
    hide Emits, CodeOf, JumpsFit, Opcode, Encode, Patched, Branch, b.Valid, Pending, Patch, C.Push, C.Pop, C.Eff, Plain, OneByte, TwoBytes;
    Widths();
    JumpForms(f, e);
    ghost var s0 := b.now;
    Push(b, f, e.cond);
    ghost var s1 := b.now;
    var atFalse := b.GenJump(OJumpFalse);
    ghost var s2 := b.now;
    Pop(b, f, e.yes);
    ghost var s3 := b.now;
    EmitsGrows(s2, C.Pop(f, e.yes), s3);
    var atEnd := b.GenJump(OJump);
    ghost var s4 := b.now;
    b.JumpHere(atFalse);
    ghost var s5 := b.now;
    Pop(b, f, e.no);
    ghost var s6 := b.now;
    EmitsGrows(s5, C.Pop(f, e.no), s6);
    b.JumpHere(atEnd);
    IfElseEmits(s1, s2, C.Pop(f, e.yes), s3, s4, s5, C.Pop(f, e.no), s6, b.now);
    EmitsCat(s0, C.Push(f, e.cond), s1, IfElse(C.Pop(f, e.yes), C.Pop(f, e.no)), b.now);
  }

  // ----- PUSH_POP -----

  /** Appends code that evaluates the expression for its effect only. */
  method Eff(b: Buffer, f: Env, e: Expr)
    requires b.Valid()
    modifies b, b.code
    ensures b.Valid() && (b.code == old(b.code) || fresh(b.code))
    ensures Emits(old(b.now), C.Eff(f, e), b.now)
    decreases e, 7
  {
    hide Emits, CodeOf, JumpsFit, Opcode, Encode, Patched, Branch, b.Valid, Plain, OneByte, TwoBytes, C.Push, C.Eff;
    EffForms(f, e);
    EmitsNothing(b.now);
    match e
    case ENil =>
    case ELogical(_) =>
    case ENumber(_) =>
    case EAliasSym(_) =>
    case ERef(_) =>
    case EIif(_, _, _) => EffIif(b, f, e);
    case EList(es) => EffAll(b, f, es);
    case EArray(es) => EffAll(b, f, es);
    case EIndex(_, _) => EffSimple(b, f, e);
    case ECall(_, _) => EffCall(b, f, e);
    case EAliased(_, _) => EffAliased(b, f, e);
    case EAssign(l, r) => if l.EField? { Drop(b, f, e); } else { EffSimple(b, f, e); }
    case EOpAssign(_, _, _) => EffOpAssign(b, f, e);
    case EStep(_, _, _) => EffStep(b, f, e);
    case EAnd(_, _) => if f.shortcuts { EffLogical(b, f, e); } else { Drop(b, f, e); }
    case EOr(_, _) => if f.shortcuts { EffLogical(b, f, e); } else { Drop(b, f, e); }
    case ENot(l) => if f.harbour { Eff(b, f, l); } else { Drop(b, f, e); }
    case ENegate(l) => if f.harbour { Eff(b, f, l); } else { Drop(b, f, e); }
    case EBin(_, _, _) => if f.harbour { EffSimple(b, f, e); } else { Drop(b, f, e); }
    case _ => Drop(b, f, e);
  }

  method EffSimple(b: Buffer, f: Env, e: Expr)
    requires e.EIndex? || (e.EAssign? && !e.lhs.EField?) || (e.EBin? && f.harbour)
    requires b.Valid()
    modifies b, b.code
    ensures b.Valid() && (b.code == old(b.code) || fresh(b.code))
    ensures Emits(old(b.now), C.Eff(f, e), b.now)
    decreases e, 6
  {
    hide Emits, CodeOf, JumpsFit, Opcode, Encode, Patched, Branch, b.Valid, Plain, OneByte, TwoBytes;
    Widths();
    match e
    case EIndex(a, i) =>
      ghost var s0 := b.now;
      Eff(b, f, a);
      ghost var s1 := b.now;
      Eff(b, f, i);
      EmitsCat(s0, C.Eff(f, a), s1, C.Eff(f, i), b.now);
    case EAssign(l, r) =>
      ghost var s0 := b.now;
      Push(b, f, r);
      ghost var s1 := b.now;
      Pop(b, f, l);
      EmitsCat(s0, C.Push(f, r), s1, C.Pop(f, l), b.now);
    case EBin(_, l, r) =>
      ghost var s0 := b.now;
      Eff(b, f, l);
      ghost var s1 := b.now;
      Eff(b, f, r);
      EmitsCat(s0, C.Eff(f, l), s1, C.Eff(f, r), b.now);
  }

  method EffCall(b: Buffer, f: Env, e: Expr)
    requires e.ECall?
    requires b.Valid()
    modifies b, b.code
    ensures b.Valid() && (b.code == old(b.code) || fresh(b.code))
    ensures Emits(old(b.now), C.Eff(f, e), b.now)
    decreases e, 6
  {
    hide Emits, CodeOf, JumpsFit, Opcode, Encode, Patched, Branch, b.Valid, Plain, OneByte, TwoBytes;
    Widths();
    ghost var s0 := b.now;
    GenWord(b, OPushFuncSym, e.f);
    ghost var s1 := b.now;
    PushAll(b, f, e.args);
    ghost var s2 := b.now;
    GenCounted(b, ODoShort, ODo, Len(e.args));
    Emits3(s0, C.Op1(OPushFuncSym, e.f), s1, C.PushAll(f, e.args), s2, C.Counted(ODoShort, ODo, Len(e.args)), b.now);
  }

  method EffAliased(b: Buffer, f: Env, e: Expr)
    requires e.EAliased?
    requires b.Valid()
    modifies b, b.code
    ensures b.Valid() && (b.code == old(b.code) || fresh(b.code))
    ensures Emits(old(b.now), C.Eff(f, e), b.now)
    decreases e, 6
  {
    hide Emits, CodeOf, JumpsFit, Opcode, Encode, Patched, Branch, b.Valid, Plain, OneByte, TwoBytes;
    Widths();
    ghost var s0 := b.now;
    Gen(b, OPushAlias);
    ghost var s1 := b.now;
    Push(b, f, e.alias);
    ghost var s2 := b.now;
    Gen(b, OPopAlias);
    ghost var s3 := b.now;
    Eff(b, f, e.body);
    ghost var s4 := b.now;
    Gen(b, OPopAlias);
    Emits5(s0, C.Op0(OPushAlias), s1, C.Push(f, e.alias), s2, C.Op0(OPopAlias), s3, C.Eff(f, e.body), s4, C.Op0(OPopAlias), b.now);
  }

  method Drop(b: Buffer, f: Env, e: Expr)
    requires b.Valid()
    modifies b, b.code
    ensures b.Valid() && (b.code == old(b.code) || fresh(b.code))
    ensures Emits(old(b.now), C.Dropped(f, e), b.now)
    decreases e, 5
  {
    hide Emits, CodeOf, JumpsFit, Opcode, Encode, Patched, Branch, b.Valid, Plain, OneByte, TwoBytes;
    Widths();
    ghost var s0 := b.now;
    Push(b, f, e);
    ghost var s1 := b.now;
    Gen(b, OPop);
    EmitsCat(s0, C.Push(f, e), s1, C.Op0(OPop), b.now);
  }

  /** No warning about a meaningless NIL; it would emit nothing anyway. */
  method EffUnlessNil(b: Buffer, f: Env, e: Expr)
    requires b.Valid()
    modifies b, b.code
    ensures b.Valid() && (b.code == old(b.code) || fresh(b.code))
    ensures Emits(old(b.now), C.Eff(f, e), b.now)
    decreases e, 8
  {
    hide Emits, C.Push, b.Valid;
    if !e.ENil? {
      Eff(b, f, e);
    } else {
      EmitsNothing(b.now);
    }
  }

  /** When nothing was emitted after the pending jump, it is inverted instead of adding a second one. */
  method EffIif(b: Buffer, f: Env, e: Expr)
    requires e.EIif?
    requires b.Valid()
    modifies b, b.code
    ensures b.Valid() && (b.code == old(b.code) || fresh(b.code))
    ensures Emits(old(b.now), C.Eff(f, e), b.now)
    decreases e, 6
  {
    hide Emits, CodeOf, JumpsFit, Opcode, Encode, Patched, Branch, b.Valid, Pending, Patch, C.Push, C.Pop, C.Eff, Plain, OneByte, TwoBytes;
    JumpForms(f, e);
    ghost var s0 := b.now;
    Push(b, f, e.cond);
    ghost var s1 := b.now;
    var atFalse := b.GenJump(OJumpFalse);
    ghost var s2 := b.now;
    EffUnlessNil(b, f, e.yes);
    ghost var s3 := b.now;
    ghost var yes, no := C.Eff(f, e.yes), C.Eff(f, e.no);
    EmitsGrows(s2, yes, s3);
    b.EndOfCode();
    if b.pos == atFalse + 3 {
      b.Overwrite(atFalse - 1, OJumpTrue);
      ghost var s4 := b.now;
      EffUnlessNil(b, f, e.no);
      ghost var s5 := b.now;
      EmitsGrows(s4, no, s5);
      b.JumpHere(atFalse);
      InvertEmits(s1, s2, yes, s3, s4, no, s5, b.now);
    } else {
      var atEnd := b.GenJump(OJump);
      ghost var s4 := b.now;
      b.JumpHere(atFalse);
      ghost var s5 := b.now;
      EffUnlessNil(b, f, e.no);
      ghost var s6 := b.now;
      EmitsGrows(s5, no, s6);
      b.JumpHere(atEnd);
      IfElseEmits(s1, s2, yes, s3, s4, s5, no, s6, b.now);
      BranchKeeps(yes, no);
    }
    EmitsCat(s0, C.Push(f, e.cond), s1, Branch(yes, no), b.now);
  }

  method EffLogical(b: Buffer, f: Env, e: Expr)
    requires f.shortcuts && (e.EAnd? || e.EOr?)
    requires b.Valid()
    modifies b, b.code
    ensures b.Valid() && (b.code == old(b.code) || fresh(b.code))
    ensures Emits(old(b.now), C.Eff(f, e), b.now)
    decreases e, 6
  {
    hide Emits, CodeOf, JumpsFit, Opcode, Encode, Patched, Branch, b.Valid, Pending, Patch, C.Push, C.Pop, C.Eff, Plain, OneByte, TwoBytes;
    Widths();
    JumpForms(f, e);
    var jump := if e.EAnd? then OJumpFalse else OJumpTrue;
    ghost var s0 := b.now;
    Push(b, f, e.l);
    ghost var s1 := b.now;
    var atEnd := b.GenJump(jump);
    ghost var s2 := b.now;
    Eff(b, f, e.r);
    ghost var s3 := b.now;
    ghost var rest := C.Eff(f, e.r);
    EmitsGrows(s2, rest, s3);
    b.JumpHere(atEnd);
    OverEmits(s1, jump, s2, rest, s3, b.now);
    EmitsCat(s0, C.Push(f, e.l), s1, if e.EAnd? then When(rest) else Unless(rest), b.now);
  }

  /** Evaluates a list for its effect. */
  method EffAll(b: Buffer, f: Env, es: Exprs)
    requires b.Valid()
    modifies b, b.code
    ensures b.Valid() && (b.code == old(b.code) || fresh(b.code))
    ensures Emits(old(b.now), C.EffAll(f, es), b.now)
    decreases es, 0
  {
    ghost var s0, done := b.now, Skip;
    EmitsNothing(s0);
    NoTail(C.EffAll(f, es));
    var p := es;
    while p.More?
      invariant b.Valid() && (b.code == old(b.code) || fresh(b.code))
      invariant Emits(s0, done, b.now) && Same(Cat(done, C.EffAll(f, p)), C.EffAll(f, es))
      invariant p == es || p < es
      decreases p
    {
      ghost var s1 := b.now;
      Eff(b, f, p.head);
      EmitsCat(s0, done, s1, C.Eff(f, p.head), b.now);
      Regroup(done, C.Eff(f, p.head), C.EffAll(f, p.tail));
      done := Cat(done, C.Eff(f, p.head));
      p := p.tail;
    }
    NoTail(done);
    EmitsSame(s0, done, C.EffAll(f, es), b.now);
  }

  method EffOpAssign(b: Buffer, f: Env, e: Expr)
    requires e.EOpAssign?
    requires b.Valid()
    modifies b, b.code
    ensures b.Valid() && (b.code == old(b.code) || fresh(b.code))
    ensures Emits(old(b.now), C.EffOpAssign(f, e), b.now)
    decreases e, 6
  {
    hide Emits, CodeOf, JumpsFit, Opcode, Encode, Patched, Branch, b.Valid, Plain, OneByte, TwoBytes;
    Widths();
    if C.AddsInt(f, e) {
      AddInt(b, f, e);
    } else if UpdatesInPlace(f, e.lhs) {
      ghost var s0 := b.now;
      Ref(b, f, e.lhs);
      ghost var s1 := b.now;
      Push(b, f, e.rhs);
      ghost var s2 := b.now;
      Gen(b, OOpEqPop(e.aop));
      Emits3(s0, C.Ref(f, e.lhs), s1, C.Push(f, e.rhs), s2, C.Op0(OOpEqPop(e.aop)), b.now);
    } else if e.lhs.EField? {
      Drop(b, f, e);
    } else {
      ghost var s0 := b.now;
      Push(b, f, e.lhs);
      ghost var s1 := b.now;
      Push(b, f, e.rhs);
      ghost var s2 := b.now;
      Gen(b, OBin(Arith(e.aop)));
      ghost var s3 := b.now;
      Pop(b, f, e.lhs);
      Emits4(s0, C.Push(f, e.lhs), s1, C.Push(f, e.rhs), s2, C.Op0(OBin(Arith(e.aop))), s3, C.Pop(f, e.lhs), b.now);
    }
  }

  method EffStep(b: Buffer, f: Env, e: Expr)
    requires e.EStep?
    requires b.Valid()
    modifies b, b.code
    ensures b.Valid() && (b.code == old(b.code) || fresh(b.code))
    ensures Emits(old(b.now), C.EffStep(f, e), b.now)
    decreases e, 6
  {
    hide Emits, CodeOf, JumpsFit, Opcode, Encode, Patched, Branch, b.Valid, Plain, OneByte, TwoBytes;
    Widths();
    if StepsInPlace(f, e.lhs) {
      if e.lhs.EVar? && e.lhs.x.Local? {
        GenWord(b, OLocalStep(e.inc), e.lhs.x.lpos);
      } else {
        ghost var s0 := b.now;
        Ref(b, f, e.lhs);
        ghost var s1 := b.now;
        Gen(b, OStepEqPop(e.inc));
        EmitsCat(s0, C.Ref(f, e.lhs), s1, C.Op0(OStepEqPop(e.inc)), b.now);
      }
    } else if e.lhs.EField? {
      ghost var s0 := b.now;
      PushPre(b, f, e);
      ghost var s1 := b.now;
      Gen(b, OPop);
      EmitsCat(s0, C.PushPre(f, e), s1, C.Op0(OPop), b.now);
    } else {
      ghost var s0 := b.now;
      Push(b, f, e.lhs);
      ghost var s1 := b.now;
      Gen(b, OUn(StepOp(e.inc)));
      ghost var s2 := b.now;
      Pop(b, f, e.lhs);
      Emits3(s0, C.Push(f, e.lhs), s1, C.Op0(OUn(StepOp(e.inc))), s2, C.Pop(f, e.lhs), b.now);
    }
  }
}
