/** Which encodings the compiler chooses: the shortest one for numbers, counts and variables, and the
    special instructions for units, literal amounts and locals exactly when they apply. */
module Chosen {
  import opened Bytes
  import opened Runtime
  import opened Pcode
  import opened Asm
  import opened Expr
  import opened Compile

  // ----- numbers, counts and variables -----

  /** The instructions that push the integer `n`. */
  ghost predicate PushesInt(i: Instr, n: int)
  {
    && Fits(i)
    && match i.op
       case OZero => n == 0
       case OOne => n == 1
       case OPushByte => i.x == n
       case OPushInt => i.x == n
       case OPushLong => i.x == n
       case OPushLongLong => i.x == n
       case _ => false
  }

  /** The instruction chosen pushes the number, and none that does is shorter. */
  lemma ShortestNumber(n: S64, other: Instr)
    ensures PushNumber(n).Ins? && PushesInt(PushNumber(n).i, n)
    ensures PushesInt(other, n) ==> |CodeOf(PushNumber(n))| <= |Encode(other)|
  {
    hide LE, OpOf;
    Widths4And8();
    NumberSizes();
  }

  lemma Widths4And8()
    ensures Pow256(1) == 0x100 && Pow256(2) == 0x10000 && Pow256(4) == 0x1_0000_0000
    ensures Pow256(8) == 0x1_0000_0000_0000_0000
  {
    assert Pow256(3) == 0x100_0000;
    assert Pow256(5) == 256 * Pow256(4) && Pow256(6) == 256 * Pow256(5);
    assert Pow256(7) == 256 * Pow256(6);
  }

  lemma NumberSizes()
    ensures Size(OZero) == 1 && Size(OOne) == 1 && Size(OPushByte) == 2 && Size(OPushInt) == 3
    ensures Size(OPushLong) == 5 && Size(OPushLongLong) == 9
  {
    hide TakesWord, TakesSignedWord, TakesByte, TakesSignedByte;
    LiteralWidths();
    NumberFormats();
  }

  lemma NumberFormats()
    ensures TakesSignedByte(OPushByte) && !TakesByte(OPushByte) && TakesSignedWord(OPushInt)
    ensures !TakesWord(OPushByte) && !TakesSignedWord(OPushByte) && !TakesWord(OPushInt)
    ensures !OneByte(OPushLong) && !TwoBytes(OPushLong) && !OneByte(OPushLongLong) && !TwoBytes(OPushLongLong)
  {
  }

  /** Counts up to 255 take one byte, greater ones two. */
  lemma ShortestCount(n: nat)
    requires n <= MAX_ARGS
    ensures |CodeOf(Counted(OFunctionShort, OFunction, n))| == (if n <= 255 then 2 else 3)
    ensures |CodeOf(Counted(ODoShort, ODo, n))| == (if n <= 255 then 2 else 3)
    ensures |CodeOf(Counted(OSendShort, OSend, n))| == (if n <= 255 then 2 else 3)
  {
    hide LE, Opcode;
  }

  /** A local takes a one-byte operand exactly in a codeblock and within reach of a byte. */
  lemma NearLocals(f: Env, p: LocalPos, b: BlockPos)
    ensures |CodeOf(PushVar(f, Local(p)))| == |CodeOf(PopVar(f, Local(p)))| == (if f.block && p < 0x80 then 2 else 3)
    ensures |CodeOf(PushVar(f, BlockLocal(b)))| == |CodeOf(PopVar(f, BlockLocal(b)))| ==
      (if f.block && b >= -0x80 then 2 else 3)
  {
    hide LE, Opcode;
  }

  /** Symbols up to 255 take a one-byte operand. */
  lemma NearSymbols(f: Env, s: U16)
    ensures |CodeOf(Push(f, EAliasSym(s)))| == (if s <= 255 then 2 else 3)
  {
    hide LE, Opcode;
  }

  // ----- special instructions -----

  /** With the extended optimisations `e + 1`, `1 + e` and `e - -1` are `e` and INC, `e - 1`, `e + -1` and
      `-1 + e` are `e` and DEC; without them both operands are pushed. */
  lemma UnitsAreSteps(f: Env, e: Expr)
    requires !e.ENumber?
    ensures var inc, dec := Cat(Push(f, e), Op0(OUn(Inc))), Cat(Push(f, e), Op0(OUn(Dec)));
      f.extopt ==>
        && Push(f, EBin(Arith(Plus), e, ENumber(1))) == Push(f, EBin(Arith(Plus), ENumber(1), e)) == inc
        && Push(f, EBin(Arith(Minus), e, ENumber(-1))) == inc
        && Push(f, EBin(Arith(Minus), e, ENumber(1))) == dec
        && Push(f, EBin(Arith(Plus), e, ENumber(-1))) == Push(f, EBin(Arith(Plus), ENumber(-1), e)) == dec
    ensures !f.extopt ==>
      Push(f, EBin(Arith(Plus), e, ENumber(1))) == Cat(Push(f, e), Cat(Op0(OOne), Op0(OBin(Arith(Plus)))))
  {
  }

  /** Outside strict mode a 16-bit literal added to a local is one instruction, a subtracted one too,
      with the amount negated, unless it is -32768. */
  lemma LiteralsAreAdded(f: Env, p: LocalPos, n: S64)
    requires f.harbour
    ensures Eff(f, EOpAssign(Plus, EVar(Local(p)), ENumber(n))) ==
      if -0x8000 <= n < 0x8000 then Ins(Instr(OLocalAddInt, p, n))
      else Cat(Op1(OPushLocalRef, p), Cat(PushNumber(n), Op0(OOpEqPop(Plus))))
    ensures Eff(f, EOpAssign(Minus, EVar(Local(p)), ENumber(n))) ==
      if -0x8000 < n < 0x8000 then Ins(Instr(OLocalAddInt, p, -n))
      else Cat(Op1(OPushLocalRef, p), Cat(PushNumber(n), Op0(OOpEqPop(Minus))))
  {
    hide PushNumber;
    assert Push(f, ENumber(n)) == PushNumber(n) && Ref(f, EVar(Local(p))) == RefVar(Local(p));
  }

  /** A local is stepped by one instruction outside strict mode, before or after its value is pushed. */
  lemma LocalsAreStepped(f: Env, p: LocalPos, inc: bool)
    requires f.harbour
    ensures var x := EVar(Local(p));
      && Eff(f, EStep(true, inc, x)) == Eff(f, EStep(false, inc, x)) == Op1(OLocalStep(inc), p)
      && Push(f, EStep(true, true, x)) == Op1(OLocalIncPush, p)
      && Push(f, EStep(true, false, x)) == Cat(Op1(OLocalStep(false), p), PushVar(f, Local(p)))
      && Push(f, EStep(false, inc, x)) == Cat(PushVar(f, Local(p)), Op1(OLocalStep(inc), p))
  {
    hide PushVar;
    assert Push(f, EVar(Local(p))) == PushVar(f, Local(p));
  }

  /** The other variables that can be referenced are stepped and updated through a reference, and so is a
      local whose amount is no 16-bit literal. */
  lemma OthersByReference(f: Env, x: Var, op: ArithOp, inc: bool, e: Expr)
    requires f.harbour && !x.FieldVar? && !x.Undeclared?
    ensures !x.Local? ==>
      && Push(f, EStep(true, inc, EVar(x))) == Cat(RefVar(x), Op0(OStepEq(inc)))
      && Push(f, EStep(false, inc, EVar(x))) == Cat(RefVar(x), Cat(Op0(ODuplUnref), Op0(OStepEqPop(inc))))
      && Eff(f, EStep(true, inc, EVar(x))) == Eff(f, EStep(false, inc, EVar(x))) == Cat(RefVar(x), Op0(OStepEqPop(inc)))
    ensures !(x.Local? && e.ENumber?) ==>
      && Push(f, EOpAssign(op, EVar(x), e)) == Cat(RefVar(x), Cat(Push(f, e), Op0(OOpEq(op))))
      && Eff(f, EOpAssign(op, EVar(x), e)) == Cat(RefVar(x), Cat(Push(f, e), Op0(OOpEqPop(op))))
  {
    hide RefVar;
    assert Ref(f, EVar(x)) == RefVar(x);
  }
}
