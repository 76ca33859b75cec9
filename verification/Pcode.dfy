/** The pcode instruction set (include/hbpcode.h), its byte encoding, and the machine that runs it. */
module Pcode {
  import opened Wrappers
  import opened Bytes
  import opened Runtime

  datatype Op =
    | OBin(bin: BinOp) | OUn(un: UnOp)
    | OOpEq(a: ArithOp) | OOpEqPop(ap: ArithOp)
    | OStepEq(inc: bool) | OStepEqPop(incp: bool)
    | OLocalStep(incl: bool) | OLocalIncPush | OLocalAddInt
    | OPushNil | OTrue | OFalse | OZero | OOne | OPushByte | OPushInt | OPushLong | OPushLongLong
    | OPushLocal | OPushLocalNear | OPushStatic | OPushMemvar | OPushField | OPushVariable
    | OPopLocal | OPopLocalNear | OPopStatic | OPopMemvar | OPopField | OPopVariable
    | OPushLocalRef | OPushStaticRef | OPushMemvarRef
    | ODuplicate | ODuplUnref | OPushUnref | OSwap | OPop
    | OArrayPush | OArrayPushRef | OArrayPop | OArrayGen
    | OMessage | OSend | OSendShort | OPushOVarRef
    | OPushFuncSym | OFunction | OFunctionShort | ODo | ODoShort
    | OPushAlias | OPopAlias | OSwapAlias | OPushSym | OPushSymNear
    | OJump | OJumpFalse | OJumpTrue

  /** An opcode with its operands; unused operands are 0. */
  datatype Instr = Instr(op: Op, x: int, y: int)

  // ----- byte encoding -----

  function ArithCode(a: ArithOp): byte
  {
    match a
    case Plus => 72
    case Minus => 49
    case Mult => 65
    case Divide => 18
    case Modulus => 50
    case Power => 84
  }

  function Opcode(op: Op): byte
  {
    match op
    case OBin(Arith(a)) => ArithCode(a)
    case OBin(Rel(r)) =>
      (match r
       case Equal => 5 case ExactlyEqual => 8 case NotEqual => 69 case Less => 35 case LessEqual => 34
       case Greater => 15 case GreaterEqual => 16 case InString => 24 case LogicalAnd => 0 case LogicalOr => 70)
    case OUn(u) => (match u case Not => 68 case Negate => 66 case Inc => 23 case Dec => 17)
    case OOpEq(a) =>
      (match a
       case Plus => 139 case Minus => 140 case Mult => 141 case Divide => 142 case Modulus => 156 case Power => 157)
    case OOpEqPop(a) =>
      (match a
       case Plus => 135 case Minus => 136 case Mult => 137 case Divide => 138 case Modulus => 154 case Power => 155)
    case OStepEq(inc) => if inc then 172 else 171
    case OStepEqPop(inc) => if inc then 170 else 169
    case OLocalStep(inc) => if inc then 174 else 173
    case OLocalIncPush => 175
    case OLocalAddInt => 153
    case OPushNil => 100
    case OTrue => 120
    case OFalse => 9
    case OZero => 121
    case OOne => 122
    case OPushByte => 92
    case OPushInt => 93
    case OPushLong => 97
    case OPushLongLong => 128
    case OPushLocal => 94
    case OPushLocalNear => 95
    case OPushStatic => 103
    case OPushMemvar => 98
    case OPushField => 91
    case OPushVariable => 109
    case OPopLocal => 79
    case OPopLocalNear => 80
    case OPopStatic => 82
    case OPopMemvar => 81
    case OPopField => 78
    case OPopVariable => 83
    case OPushLocalRef => 96
    case OPushStaticRef => 104
    case OPushMemvarRef => 99
    case ODuplicate => 21
    case ODuplUnref => 158
    case OPushUnref => 165
    case OSwap => 163
    case OPop => 73
    case OArrayPush => 1
    case OArrayPushRef => 148
    case OArrayPop => 2
    case OArrayGen => 4
    case OMessage => 48
    case OSend => 111
    case OSendShort => 112
    case OPushOVarRef => 147
    case OPushFuncSym => 176
    case OFunction => 11
    case OFunctionShort => 12
    case ODo => 19
    case ODoShort => 20
    case OPushAlias => 85
    case OPopAlias => 74
    case OSwapAlias => 119
    case OPushSym => 107
    case OPushSymNear => 108
    case OJump => 27
    case OJumpFalse => 30
    case OJumpTrue => 33
  }

  function OpOf(b: byte): Option<Op>
  {
    match b
    case 0 => Some(OBin(Rel(LogicalAnd)))
    case 1 => Some(OArrayPush)
    case 2 => Some(OArrayPop)
    case 4 => Some(OArrayGen)
    case 5 => Some(OBin(Rel(Equal)))
    case 8 => Some(OBin(Rel(ExactlyEqual)))
    case 9 => Some(OFalse)
    case 11 => Some(OFunction)
    case 12 => Some(OFunctionShort)
    case 15 => Some(OBin(Rel(Greater)))
    case 16 => Some(OBin(Rel(GreaterEqual)))
    case 17 => Some(OUn(Dec))
    case 18 => Some(OBin(Arith(Divide)))
    case 19 => Some(ODo)
    case 20 => Some(ODoShort)
    case 21 => Some(ODuplicate)
    case 23 => Some(OUn(Inc))
    case 24 => Some(OBin(Rel(InString)))
    case 27 => Some(OJump)
    case 30 => Some(OJumpFalse)
    case 33 => Some(OJumpTrue)
    case 34 => Some(OBin(Rel(LessEqual)))
    case 35 => Some(OBin(Rel(Less)))
    case 48 => Some(OMessage)
    case 49 => Some(OBin(Arith(Minus)))
    case 50 => Some(OBin(Arith(Modulus)))
    case 65 => Some(OBin(Arith(Mult)))
    case 66 => Some(OUn(Negate))
    case 68 => Some(OUn(Not))
    case 69 => Some(OBin(Rel(NotEqual)))
    case 70 => Some(OBin(Rel(LogicalOr)))
    case 72 => Some(OBin(Arith(Plus)))
    case 73 => Some(OPop)
    case 74 => Some(OPopAlias)
    case 78 => Some(OPopField)
    case 79 => Some(OPopLocal)
    case 80 => Some(OPopLocalNear)
    case 81 => Some(OPopMemvar)
    case 82 => Some(OPopStatic)
    case 83 => Some(OPopVariable)
    case 84 => Some(OBin(Arith(Power)))
    case 85 => Some(OPushAlias)
    case 91 => Some(OPushField)
    case 92 => Some(OPushByte)
    case 93 => Some(OPushInt)
    case 94 => Some(OPushLocal)
    case 95 => Some(OPushLocalNear)
    case 96 => Some(OPushLocalRef)
    case 97 => Some(OPushLong)
    case 98 => Some(OPushMemvar)
    case 99 => Some(OPushMemvarRef)
    case 100 => Some(OPushNil)
    case 103 => Some(OPushStatic)
    case 104 => Some(OPushStaticRef)
    case 107 => Some(OPushSym)
    case 108 => Some(OPushSymNear)
    case 109 => Some(OPushVariable)
    case 111 => Some(OSend)
    case 112 => Some(OSendShort)
    case 119 => Some(OSwapAlias)
    case 120 => Some(OTrue)
    case 121 => Some(OZero)
    case 122 => Some(OOne)
    case 128 => Some(OPushLongLong)
    case 135 => Some(OOpEqPop(Plus))
    case 136 => Some(OOpEqPop(Minus))
    case 137 => Some(OOpEqPop(Mult))
    case 138 => Some(OOpEqPop(Divide))
    case 139 => Some(OOpEq(Plus))
    case 140 => Some(OOpEq(Minus))
    case 141 => Some(OOpEq(Mult))
    case 142 => Some(OOpEq(Divide))
    case 147 => Some(OPushOVarRef)
    case 148 => Some(OArrayPushRef)
    case 153 => Some(OLocalAddInt)
    case 154 => Some(OOpEqPop(Modulus))
    case 155 => Some(OOpEqPop(Power))
    case 156 => Some(OOpEq(Modulus))
    case 157 => Some(OOpEq(Power))
    case 158 => Some(ODuplUnref)
    case 163 => Some(OSwap)
    case 165 => Some(OPushUnref)
    case 169 => Some(OStepEqPop(false))
    case 170 => Some(OStepEqPop(true))
    case 171 => Some(OStepEq(false))
    case 172 => Some(OStepEq(true))
    case 173 => Some(OLocalStep(false))
    case 174 => Some(OLocalStep(true))
    case 175 => Some(OLocalIncPush)
    case 176 => Some(OPushFuncSym)
    case _ => None
  }

  predicate IsOperator(op: Op)
  {
    op.OBin? || op.OUn? || op.OOpEq? || op.OOpEqPop? || op.OStepEq? || op.OStepEqPop? || op.OLocalStep?
  }

  predicate IsLiteral(op: Op)
  {
    || op.OPushNil? || op.OTrue? || op.OFalse? || op.OZero? || op.OOne? || op.OPushByte? || op.OPushInt?
    || op.OPushLong? || op.OPushLongLong? || op.OPushAlias? || op.OPushSym? || op.OPushSymNear?
  }

  predicate IsPush(op: Op)
  {
    || op.OPushLocal? || op.OPushLocalNear? || op.OPushStatic? || op.OPushMemvar? || op.OPushField?
    || op.OPushVariable? || op.OPushLocalRef? || op.OPushStaticRef? || op.OPushMemvarRef? || op.OPushUnref?
    || op.OPushOVarRef? || op.OPushFuncSym?
  }

  lemma OpOfOperator(op: Op)
    requires IsOperator(op)
    ensures OpOf(Opcode(op)) == Some(op)
  {
  }

  lemma OpOfPush(op: Op)
    requires IsPush(op)
    ensures OpOf(Opcode(op)) == Some(op)
  {
  }

  lemma OpOfLiteral(op: Op)
    requires IsLiteral(op)
    ensures OpOf(Opcode(op)) == Some(op)
  {
  }

  lemma OpOfOther(op: Op)
    requires !IsPush(op) && !IsOperator(op) && !IsLiteral(op)
    ensures OpOf(Opcode(op)) == Some(op)
  {
  }

  /** Opcodes are distinct. */
  lemma OpOfOpcode(op: Op)
    ensures OpOf(Opcode(op)) == Some(op)
  {
    hide OpOf, Opcode;
    if IsOperator(op) {
      OpOfOperator(op);
    } else if IsPush(op) {
      OpOfPush(op);
    } else if IsLiteral(op) {
      OpOfLiteral(op);
    } else {
      OpOfOther(op);
    }
  }

  /** Width in bytes of the operand, and whether it is read as a signed number. */
  datatype Format = NoOperand | Unsigned(w: nat) | SignedInt(sw: nat) | LocalAndShort

  predicate TakesWord(op: Op)
  {
    || op.OLocalStep? || op.OLocalIncPush? || op.OPushStatic? || op.OPushMemvar? || op.OPushField?
    || op.OPushVariable? || op.OPopStatic? || op.OPopMemvar? || op.OPopField? || op.OPopVariable?
    || op.OPushStaticRef? || op.OPushMemvarRef? || op.OArrayGen? || op.OMessage? || op.OSend?
    || op.OPushFuncSym? || op.OFunction? || op.ODo? || op.OPushSym?
  }

  predicate TakesSignedWord(op: Op)
  {
    op.OPushInt? || op.OPushLocal? || op.OPopLocal? || op.OPushLocalRef?
  }

  predicate TakesByte(op: Op)
  {
    op.OSwap? || op.OSendShort? || op.OFunctionShort? || op.ODoShort? || op.OPushSymNear?
  }

  predicate TakesSignedByte(op: Op)
  {
    op.OPushByte? || op.OPushLocalNear? || op.OPopLocalNear?
  }

  predicate TakesMore(op: Op)
  {
    op.OPushLong? || op.OPushLongLong? || op.OLocalAddInt? || op.OJump? || op.OJumpFalse? || op.OJumpTrue?
  }

  function OperandFormat(op: Op): Format
  {
    if TakesWord(op) then Unsigned(2)
    else if TakesSignedWord(op) then SignedInt(2)
    else if TakesByte(op) then Unsigned(1)
    else if TakesSignedByte(op) then SignedInt(1)
    else match op
      case OPushLong => SignedInt(4)
      case OPushLongLong => SignedInt(8)
      case OLocalAddInt => LocalAndShort
      case OJump => SignedInt(3)
      case OJumpFalse => SignedInt(3)
      case OJumpTrue => SignedInt(3)
      case _ => NoOperand
  }

  function OperandSize(f: Format): nat
  {
    match f
    case NoOperand => 0
    case Unsigned(w) => w
    case SignedInt(w) => w
    case LocalAndShort => 4
  }

  function Size(op: Op): nat
  {
    1 + OperandSize(OperandFormat(op))
  }

  ghost predicate Fits(i: Instr)
  {
    match OperandFormat(i.op)
    case NoOperand => i.x == 0 && i.y == 0
    case Unsigned(w) => 0 <= i.x < Pow256(w) && i.y == 0
    case SignedInt(w) => FitsSigned(i.x, w) && i.y == 0
    case LocalAndShort => 0 <= i.x < 0x10000 && FitsSigned(i.y, 2)
  }

  function OperandBytes(i: Instr): (s: seq<byte>)
    ensures |s| == OperandSize(OperandFormat(i.op))
  {
    match OperandFormat(i.op)
    case NoOperand => []
    case Unsigned(w) => LE(i.x, w)
    case SignedInt(w) => LE(i.x, w)
    case LocalAndShort => LE(i.x, 2) + LE(i.y, 2)
  }

  function Encode(i: Instr): (s: seq<byte>)
    ensures |s| == Size(i.op)
  {
    [Opcode(i.op)] + OperandBytes(i)
  }

  function Operands(op: Op, s: seq<byte>): Instr
    requires |s| == OperandSize(OperandFormat(op))
  {
    match OperandFormat(op)
    case NoOperand => Instr(op, 0, 0)
    case Unsigned(w) => Instr(op, FromLE(s), 0)
    case SignedInt(w) => Instr(op, SignedLE(s), 0)
    case LocalAndShort => Instr(op, FromLE(s[..2]), SignedLE(s[2..]))
  }

  /** Reads the instruction that starts at `pc`, if there is one. */
  function Decode(code: seq<byte>, pc: int): Option<Instr>
  {
    if !(0 <= pc < |code|) then None
    else
      var op :- OpOf(code[pc]);
      if pc + Size(op) > |code| then None
      else Some(Operands(op, code[pc + 1..pc + Size(op)]))
  }

  ghost predicate At(code: seq<byte>, p: int, s: seq<byte>)
  {
    0 <= p && p + |s| <= |code| && code[p..p + |s|] == s
  }

  lemma OperandsOfBytes(i: Instr)
    requires Fits(i)
    ensures Operands(i.op, OperandBytes(i)) == i
  {
    match OperandFormat(i.op)
    case NoOperand =>
    case Unsigned(w) => UnsignedRoundTrip(i.x, w);
    case SignedInt(w) => SignedRoundTrip(i.x, w);
    case LocalAndShort =>
      assert Pow256(2) == 0x10000;
      UnsignedRoundTrip(i.x, 2);
      SignedRoundTrip(i.y, 2);
      assert OperandBytes(i)[..2] == LE(i.x, 2) && OperandBytes(i)[2..] == LE(i.y, 2);
  }

  /** Decoding inverts encoding, wherever the bytes stand. */
  lemma DecodeEncode(code: seq<byte>, p: int, i: Instr)
    requires At(code, p, Encode(i)) && Fits(i)
    ensures Decode(code, p) == Some(i)
  {
    var e := Encode(i);
    assert code[p] == code[p..p + |e|][0];
    OpOfOpcode(i.op);
    assert code[p + 1..p + Size(i.op)] == e[1..] == OperandBytes(i);
    OperandsOfBytes(i);
  }

  // ----- operand widths -----

  predicate OneByte(op: Op)
  {
    TakesByte(op) || TakesSignedByte(op)
  }

  predicate TwoBytes(op: Op)
  {
    TakesWord(op) || TakesSignedWord(op)
  }

  predicate Plain(op: Op)
  {
    !TwoBytes(op) && !OneByte(op) && !TakesMore(op)
  }

  lemma OperatorWidths()
    ensures forall op :: Plain(OUn(op))
    ensures forall op :: Plain(OBin(op))
    ensures forall op :: Plain(OOpEq(op)) && Plain(OOpEqPop(op))
    ensures forall inc :: Plain(OStepEq(inc)) && Plain(OStepEqPop(inc)) && TwoBytes(OLocalStep(inc))
  {
  }

  lemma LiteralWidths()
    ensures Plain(OPushNil) && Plain(OTrue) && Plain(OFalse) && Plain(OZero) && Plain(OOne)
  {
  }

  lemma CopyWidths()
    ensures Plain(ODuplicate) && Plain(ODuplUnref) && Plain(OPushUnref) && Plain(OPop) && Plain(OPushOVarRef)
  {
  }

  lemma ArrayWidths()
    ensures Plain(OArrayPush) && Plain(OArrayPushRef) && Plain(OArrayPop)
  {
  }

  lemma AliasWidths()
    ensures Plain(OPushAlias) && Plain(OPopAlias) && Plain(OSwapAlias)
  {
  }

  lemma ByteWidths()
    ensures OneByte(OSwap) && OneByte(OSendShort) && OneByte(OFunctionShort) && OneByte(ODoShort)
    ensures OneByte(OPushByte) && OneByte(OPushSymNear) && OneByte(OPushLocalNear) && OneByte(OPopLocalNear)
  {
  }

  lemma WordWidths()
    ensures TwoBytes(OMessage) && TwoBytes(OSend) && TwoBytes(OFunction) && TwoBytes(ODo) && TwoBytes(OPushFuncSym)
    ensures TwoBytes(OPushInt) && TwoBytes(OPushSym) && TwoBytes(OArrayGen) && TwoBytes(OLocalIncPush)
  {
  }

  lemma VariableWidths()
    ensures TwoBytes(OPushLocal) && TwoBytes(OPushStatic) && TwoBytes(OPushMemvar) && TwoBytes(OPushField)
    ensures TwoBytes(OPopLocal) && TwoBytes(OPopStatic) && TwoBytes(OPopMemvar) && TwoBytes(OPopField)
    ensures TwoBytes(OPushVariable) && TwoBytes(OPopVariable)
    ensures TwoBytes(OPushLocalRef) && TwoBytes(OPushStaticRef) && TwoBytes(OPushMemvarRef)
  {
  }

  /** The operand widths the handlers rely on. */
  lemma Widths()
    ensures forall op :: Plain(OUn(op))
    ensures forall op :: Plain(OBin(op))
    ensures forall op :: Plain(OOpEq(op)) && Plain(OOpEqPop(op))
    ensures forall inc :: Plain(OStepEq(inc)) && Plain(OStepEqPop(inc)) && TwoBytes(OLocalStep(inc))
    ensures Plain(OPushNil) && Plain(OTrue) && Plain(OFalse) && Plain(OZero) && Plain(OOne)
    ensures Plain(ODuplicate) && Plain(ODuplUnref) && Plain(OPushUnref) && Plain(OPop) && Plain(OPushOVarRef)
    ensures Plain(OArrayPush) && Plain(OArrayPushRef) && Plain(OArrayPop)
    ensures Plain(OPushAlias) && Plain(OPopAlias) && Plain(OSwapAlias)
    ensures OneByte(OSwap) && OneByte(OSendShort) && OneByte(OFunctionShort) && OneByte(ODoShort)
    ensures OneByte(OPushByte) && OneByte(OPushSymNear) && OneByte(OPushLocalNear) && OneByte(OPopLocalNear)
    ensures TwoBytes(OMessage) && TwoBytes(OSend) && TwoBytes(OFunction) && TwoBytes(ODo) && TwoBytes(OPushFuncSym)
    ensures TwoBytes(OPushInt) && TwoBytes(OPushSym) && TwoBytes(OArrayGen) && TwoBytes(OLocalIncPush)
    ensures TwoBytes(OPushLocal) && TwoBytes(OPushStatic) && TwoBytes(OPushMemvar) && TwoBytes(OPushField)
    ensures TwoBytes(OPopLocal) && TwoBytes(OPopStatic) && TwoBytes(OPopMemvar) && TwoBytes(OPopField)
    ensures TwoBytes(OPushVariable) && TwoBytes(OPopVariable)
    ensures TwoBytes(OPushLocalRef) && TwoBytes(OPushStaticRef) && TwoBytes(OPushMemvarRef)
  {
    hide *;
    OperatorWidths();
    LiteralWidths();
    CopyWidths();
    ArrayWidths();
    AliasWidths();
    ByteWidths();
    WordWidths();
    VariableWidths();
  }

  // ----- the evaluation stack -----

  datatype Stack = Empty | Item(top: Item, rest: Stack)

  datatype State = State(stack: Stack, w: World)

  function PushVal(v: Value, s: Stack): Stack
  {
    Stack.Item(Val(v), s)
  }

  function PushRef(loc: Loc, s: Stack): Stack
  {
    Stack.Item(RefTo(loc), s)
  }

  /** The `n` topmost items in the order they were pushed, and the stack below them. */
  function Take(n: nat, s: Stack): Option<(seq<Item>, Stack)>
  {
    if n == 0 then Some(([], s))
    else if s.Empty? then None
    else
      var (items, below) :- Take(n - 1, s.rest);
      Some((items + [s.top], below))
  }

  /** The exchanges made by `hb_vmSwap`: the two topmost items, then the two below the top, ... */
  function Swap(n: nat, s: Stack): Option<Stack>
  {
    match s
    case Item(a, Item(b, rest)) =>
      if n == 0 then Some(Stack.Item(b, Stack.Item(a, rest)))
      else
        var below :- Swap(n - 1, Stack.Item(a, rest));
        Some(Stack.Item(b, below))
    case _ => None
  }

  // ----- instructions -----

  function Ret(s: Stack, r: Outcome): Option<State>
  {
    var r' :- r;
    Some(State(PushVal(r'.v, s), r'.w))
  }

  function Done(s: Stack, w: Option<World>): Option<State>
  {
    var w' :- w;
    Some(State(s, w'))
  }

  function PushRead(s: State, v: Option<Value>): Option<State>
  {
    var v' :- v;
    Some(State(PushVal(v', s.stack), s.w))
  }

  function PopInto(s: State, x: Var): Option<State>
  {
    match s.stack
    case Item(Val(v), rest) => Done(rest, WriteVar(s.w, x, v))
    case _ => None
  }

  function PushCellRef(s: State, c: Cell): Option<State>
  {
    if c in s.w.cells then Some(State(PushRef(CellLoc(c), s.stack), s.w)) else None
  }

  function DoBinary(m: Sem, op: BinOp, s: State): Option<State>
  {
    match s.stack
    case Item(Val(b), Item(Val(a), rest)) => PushRead(State(rest, s.w), m.binary(op, a, b))
    case _ => None
  }

  function DoUnary(m: Sem, op: UnOp, s: State): Option<State>
  {
    match s.stack
    case Item(Val(a), rest) => PushRead(State(rest, s.w), m.unary(op, a))
    case _ => None
  }

  function NoResult(s: Stack, r: Outcome): Option<State>
  {
    var r' :- r;
    Some(State(s, r'.w))
  }

  function AddToLocal(m: Sem, pos: int, k: int, s: State): Option<State>
  {
    var cur :- Get(s.w, LocalCell(pos));
    var r :- m.addInt(cur, k);
    Some(s.(w := s.w.(cells := s.w.cells[LocalCell(pos) := r])))
  }

  function DoArrayPush(s: State): Option<State>
  {
    match s.stack
    case Item(Val(i), Item(Val(a), rest)) => PushRead(State(rest, s.w), Element(s.w, a, i))
    case _ => None
  }

  function DoArrayPushRef(m: Sem, s: State): Option<State>
  {
    match s.stack
    case Item(Val(i), Item(base, rest)) =>
      var a :- Followed(m, base, s.w);
      var loc :- ElementLoc(a.w, a.v, i);
      Some(State(PushRef(loc, rest), a.w))
    case _ => None
  }

  function DoArrayPop(m: Sem, s: State): Option<State>
  {
    match s.stack
    case Item(Val(i), Item(base, Item(Val(v), rest))) =>
      var a :- Followed(m, base, s.w);
      var loc :- ElementLoc(a.w, a.v, i);
      Done(rest, Store(m, loc, v, a.w))
    case _ => None
  }

  function DoArrayGen(n: nat, s: State): Option<State>
  {
    var (items, rest) :- Take(n, s.stack);
    var vs :- PlainValues(items);
    var (a, w) := NewArray(s.w, vs);
    Some(State(PushVal(a, rest), w))
  }

  function SendTop(m: Sem, n: nat, s: State): Option<State>
  {
    var (args, below) :- Take(n, s.stack);
    match below
    case Item(Val(obj), Item(Val(Symbol(msg)), rest)) => Ret(rest, DoSend(m, obj, msg, args, s.w))
    case _ => None
  }

  function CallTop(m: Sem, n: nat, keep: bool, s: State): Option<State>
  {
    var (args, below) :- Take(n, s.stack);
    match below
    case Item(Val(Nil), Item(Val(Symbol(f)), rest)) =>
      var r := DoCall(m, f, args, s.w);
      if keep then Ret(rest, r) else NoResult(rest, r)
    case _ => None
  }

  function AsU16(n: int): U16
  {
    n % 0x10000
  }

  /** The effect of one instruction that is not a jump. */
  function Exec(m: Sem, i: Instr, s: State): Option<State>
  {
    match i.op
    case OBin(b) => DoBinary(m, b, s)
    case OUn(u) => DoUnary(m, u, s)
    case OOpEq(a) =>
      (match s.stack
       case Item(Val(v), Item(RefTo(loc), rest)) => Ret(rest, Update(m, a, loc, v, s.w))
       case _ => None)
    case OOpEqPop(a) =>
      (match s.stack
       case Item(Val(v), Item(RefTo(loc), rest)) => NoResult(rest, Update(m, a, loc, v, s.w))
       case _ => None)
    case OStepEq(inc) =>
      (match s.stack
       case Item(RefTo(loc), rest) => Ret(rest, StepLoc(m, inc, loc, s.w))
       case _ => None)
    case OStepEqPop(inc) =>
      (match s.stack
       case Item(RefTo(loc), rest) => NoResult(rest, StepLoc(m, inc, loc, s.w))
       case _ => None)
    case OLocalStep(inc) => NoResult(s.stack, StepLoc(m, inc, CellLoc(LocalCell(i.x)), s.w))
    case OLocalIncPush => Ret(s.stack, StepLoc(m, true, CellLoc(LocalCell(i.x)), s.w))
    case OLocalAddInt => AddToLocal(m, i.x, i.y, s)
    case OPushNil => Some(s.(stack := PushVal(Nil, s.stack)))
    case OTrue => Some(s.(stack := PushVal(Logical(true), s.stack)))
    case OFalse => Some(s.(stack := PushVal(Logical(false), s.stack)))
    case OZero => Some(s.(stack := PushVal(Num(0), s.stack)))
    case OOne => Some(s.(stack := PushVal(Num(1), s.stack)))
    case OPushByte => Some(s.(stack := PushVal(Num(i.x), s.stack)))
    case OPushInt => Some(s.(stack := PushVal(Num(i.x), s.stack)))
    case OPushLong => Some(s.(stack := PushVal(Num(i.x), s.stack)))
    case OPushLongLong => Some(s.(stack := PushVal(Num(i.x), s.stack)))
    case OPushLocal => PushRead(s, Get(s.w, LocalCell(i.x)))
    case OPushLocalNear => PushRead(s, Get(s.w, LocalCell(i.x)))
    case OPushStatic => PushRead(s, ReadVar(s.w, Static(AsU16(i.x))))
    case OPushMemvar => PushRead(s, ReadVar(s.w, Memvar(AsU16(i.x))))
    case OPushField => PushRead(s, ReadVar(s.w, FieldVar(AsU16(i.x))))
    case OPushVariable => PushRead(s, ReadVar(s.w, Undeclared(AsU16(i.x))))
    case OPopLocal => PopLocal(s, i.x)
    case OPopLocalNear => PopLocal(s, i.x)
    case OPopStatic => PopInto(s, Static(AsU16(i.x)))
    case OPopMemvar => PopInto(s, Memvar(AsU16(i.x)))
    case OPopField => PopInto(s, FieldVar(AsU16(i.x)))
    case OPopVariable => PopInto(s, Undeclared(AsU16(i.x)))
    case OPushLocalRef => PushCellRef(s, LocalCell(i.x))
    case OPushStaticRef => PushCellRef(s, StaticCell(AsU16(i.x)))
    case OPushMemvarRef => PushCellRef(s, MemvarCell(AsU16(i.x)))
    case ODuplicate =>
      (match s.stack
       case Item(a, rest) => Some(s.(stack := Stack.Item(a, s.stack)))
       case _ => None)
    case ODuplUnref =>
      (match s.stack
       case Item(RefTo(loc), rest) =>
         var r :- Deref(m, loc, s.w);
         Some(State(PushRef(loc, PushVal(r.v, rest)), r.w))
       case Item(a, rest) => Some(s.(stack := Stack.Item(a, s.stack)))
       case _ => None)
    case OPushUnref =>
      (match s.stack
       case Item(a, rest) => Ret(s.stack, Followed(m, a, s.w))
       case _ => None)
    case OSwap =>
      if i.x < 0 then None
      else
        var st :- Swap(i.x, s.stack);
        Some(s.(stack := st))
    case OPop =>
      (match s.stack
       case Item(_, rest) => Some(s.(stack := rest))
       case _ => None)
    case OArrayPush => DoArrayPush(s)
    case OArrayPushRef => DoArrayPushRef(m, s)
    case OArrayPop => DoArrayPop(m, s)
    case OArrayGen => if i.x < 0 then None else DoArrayGen(i.x, s)
    case OMessage => Some(s.(stack := PushVal(Symbol(AsU16(i.x)), s.stack)))
    case OSend => if i.x < 0 then None else SendTop(m, i.x, s)
    case OSendShort => if i.x < 0 then None else SendTop(m, i.x, s)
    case OPushOVarRef =>
      (match s.stack
       case Item(Val(obj), Item(Val(Symbol(setter)), rest)) => Some(s.(stack := PushRef(MsgLoc(obj, setter), rest)))
       case _ => None)
    case OPushFuncSym => Some(s.(stack := PushVal(Nil, PushVal(Symbol(AsU16(i.x)), s.stack))))
    case OFunction => if i.x < 0 then None else CallTop(m, i.x, true, s)
    case OFunctionShort => if i.x < 0 then None else CallTop(m, i.x, true, s)
    case ODo => if i.x < 0 then None else CallTop(m, i.x, false, s)
    case ODoShort => if i.x < 0 then None else CallTop(m, i.x, false, s)
    case OPushAlias => Some(s.(stack := PushVal(Num(s.w.area), s.stack)))
    case OPopAlias =>
      (match s.stack
       case Item(Val(a), rest) => Done(rest, SelectArea(m, a, s.w))
       case _ => None)
    case OSwapAlias =>
      (match s.stack
       case Item(v, Item(Val(a), rest)) => Done(Stack.Item(v, rest), SelectArea(m, a, s.w))
       case _ => None)
    case OPushSym => Some(s.(stack := PushVal(Symbol(AsU16(i.x)), s.stack)))
    case OPushSymNear => Some(s.(stack := PushVal(Symbol(AsU16(i.x)), s.stack)))
    case _ => None
  }

  function PopLocal(s: State, pos: int): Option<State>
  {
    match s.stack
    case Item(Val(v), rest) => Some(State(rest, s.w.(cells := s.w.cells[LocalCell(pos) := v])))
    case _ => None
  }

  // ----- the machine -----

  datatype Config = Config(pc: int, s: State)

  /** One step: `None` is a run-time error or a program counter outside the code. A jump operand
      is relative to the opcode of the jump. */
  function Step(m: Sem, code: seq<byte>, c: Config): Option<Config>
  {
    var i :- Decode(code, c.pc);
    var next := c.pc + Size(i.op);
    match i.op
    case OJump => Some(Config(c.pc + i.x, c.s))
    case OJumpFalse =>
      (match c.s.stack
       case Item(Val(Logical(b)), rest) => Some(Config(if b then next else c.pc + i.x, c.s.(stack := rest)))
       case _ => None)
    case OJumpTrue =>
      (match c.s.stack
       case Item(Val(Logical(b)), rest) => Some(Config(if b then c.pc + i.x else next, c.s.(stack := rest)))
       case _ => None)
    case _ =>
      var s' :- Exec(m, i, c.s);
      Some(Config(next, s'))
  }

  function Run(m: Sem, code: seq<byte>, c: Config, n: nat): Option<Config>
    decreases n
  {
    if n == 0 then Some(c)
    else
      var c' :- Step(m, code, c);
      Run(m, code, c', n - 1)
  }

  /** The run from `c` gets to `r`; `None` means that it ends in a run-time error. */
  ghost predicate Yields(m: Sem, code: seq<byte>, c: Config, r: Option<Config>)
  {
    exists n: nat :: Run(m, code, c, n) == r
  }

  lemma {:induction false} RunCompose(m: Sem, code: seq<byte>, c: Config, k: nat, n: nat)
    requires Run(m, code, c, k).Some?
    ensures Run(m, code, c, k + n) == Run(m, code, Run(m, code, c, k).value, n)
    decreases k
  {
    hide Step;
    if k != 0 {
      RunCompose(m, code, Step(m, code, c).value, k - 1, n);
    }
  }

  lemma YieldsThen(m: Sem, code: seq<byte>, c: Config, mid: Config, r: Option<Config>)
    requires Yields(m, code, c, Some(mid)) && Yields(m, code, mid, r)
    ensures Yields(m, code, c, r)
  {
    var k: nat :| Run(m, code, c, k) == Some(mid);
    var n: nat :| Run(m, code, mid, n) == r;
    RunCompose(m, code, c, k, n);
  }

  lemma YieldsNow(m: Sem, code: seq<byte>, c: Config)
    ensures Yields(m, code, c, Some(c))
  {
    assert Run(m, code, c, 0) == Some(c);
  }

  lemma YieldsStep(m: Sem, code: seq<byte>, c: Config)
    ensures Yields(m, code, c, Step(m, code, c))
  {
    var r := Step(m, code, c);
    if r.Some? {
      assert Run(m, code, r.value, 0) == r;
    }
    assert Run(m, code, c, 1) == r;
  }
}
