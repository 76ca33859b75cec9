/** The code generator as a function: what each expression handler emits for each message. */
module Compile {
  import opened Runtime
  import opened Pcode
  import opened Asm
  import opened Expr

  function Op0(op: Op): Asm
  {
    Ins(Instr(op, 0, 0))
  }

  function Op1(op: Op, x: int): Asm
  {
    Ins(Instr(op, x, 0))
  }

  /** Arguments are counted in one byte when that is enough. */
  function Counted(short: Op, long: Op, n: nat): Asm
  {
    if n > 255 then Op1(long, n) else Op1(short, n)
  }

  function PushNumber(n: int): Asm
  {
    if n == 0 then Op0(OZero)
    else if n == 1 then Op0(OOne)
    else if -0x80 <= n < 0x80 then Op1(OPushByte, n)
    else if -0x8000 <= n < 0x8000 then Op1(OPushInt, n)
    else if -0x8000_0000 <= n < 0x8000_0000 then Op1(OPushLong, n)
    else Op1(OPushLongLong, n)
  }

  /** Inside a codeblock a local variable near the frame takes a one-byte operand. */
  predicate IsNear(f: Env, pos: int)
  {
    f.block && -0x80 <= pos < 0x80
  }

  function PushVar(f: Env, x: Var): Asm
  {
    match x
    case Local(p) => Op1(if IsNear(f, p) then OPushLocalNear else OPushLocal, p)
    case BlockLocal(p) => Op1(if IsNear(f, p) then OPushLocalNear else OPushLocal, p)
    case Static(s) => Op1(OPushStatic, s)
    case Memvar(s) => Op1(OPushMemvar, s)
    case FieldVar(s) => Op1(OPushField, s)
    case Undeclared(s) => Op1(OPushVariable, s)
  }

  function PopVar(f: Env, x: Var): Asm
  {
    match x
    case Local(p) => Op1(if IsNear(f, p) then OPopLocalNear else OPopLocal, p)
    case BlockLocal(p) => Op1(if IsNear(f, p) then OPopLocalNear else OPopLocal, p)
    case Static(s) => Op1(OPopStatic, s)
    case Memvar(s) => Op1(OPopMemvar, s)
    case FieldVar(s) => Op1(OPopField, s)
    case Undeclared(s) => Op1(OPopVariable, s)
  }

  /** A field cannot be referenced; the compiler reports it and emits nothing. */
  function RefVar(x: Var): Asm
  {
    match x
    case Local(p) => Op1(OPushLocalRef, p)
    case BlockLocal(p) => Op1(OPushLocalRef, p)
    case Static(s) => Op1(OPushStaticRef, s)
    case Memvar(s) => Op1(OPushMemvarRef, s)
    case FieldVar(_) => Skip
    case Undeclared(s) => Op1(OPushMemvarRef, s)
  }

  predicate IsShort(n: int)
  {
    -0x8000 <= n < 0x8000
  }

  /** A local variable changed by an integer literal gets an instruction of its own. The negated
      amount of a subtraction has to be a 16-bit number too. */
  predicate AddsInt(f: Env, e: Expr)
    requires e.EOpAssign?
  {
    && f.harbour && e.lhs.EVar? && e.lhs.x.Local? && e.rhs.ENumber? && IsShort(e.rhs.n)
    && (e.aop.Plus? || (e.aop.Minus? && e.rhs.n >= -0x7FFF))
  }

  function AddInt(f: Env, e: Expr): Asm
    requires e.EOpAssign? && AddsInt(f, e)
  {
    Ins(Instr(OLocalAddInt, e.lhs.x.lpos, Amount(f, e)))
  }

  function Amount(f: Env, e: Expr): S16
    requires e.EOpAssign? && AddsInt(f, e)
  {
    var n: S16 := e.rhs.n;
    if e.aop.Minus? then -n else n
  }

  predicate IsNumber(e: Expr, n: int)
  {
    e.ENumber? && e.n == n
  }

  /** Adding or subtracting the literal one, when the extended optimisations are on: which operand
      is left to be stepped, and in which direction. */
  datatype UnitStep = NoStep | StepRight(inc: bool) | StepLeft(inc: bool)

  function Unit(f: Env, op: BinOp, l: Expr, r: Expr): UnitStep
  {
    if !f.extopt then NoStep
    else if op == Arith(Plus) && l.ENumber? then
      if l.n == 1 then StepRight(true) else if l.n == -1 then StepRight(false) else NoStep
    else if op == Arith(Plus) then
      if IsNumber(r, 1) then StepLeft(true) else if IsNumber(r, -1) then StepLeft(false) else NoStep
    else if op == Arith(Minus) then
      if IsNumber(r, 1) then StepLeft(false) else if IsNumber(r, -1) then StepLeft(true) else NoStep
    else NoStep
  }

  // ----- PUSH_PCODE -----

  function Push(f: Env, e: Expr): Asm
    decreases e, 3
  {
    match e
    case ENil => Op0(OPushNil)
    case ELogical(b) => Op0(if b then OTrue else OFalse)
    case ENumber(n) => PushNumber(n)
    case EVar(x) => PushVar(f, x)
    case ERef(t) => Ref(f, t)
    case EIif(c, t, n) => Cat(Push(f, c), IfElse(Push(f, t), Push(f, n)))
    case EList(es) => PushLast(f, es)
    case EArray(es) => Cat(PushAll(f, es), Op1(OArrayGen, Len(es)))
    case EIndex(a, i) => Cat(Push(f, a), Cat(Push(f, i), Op0(OArrayPush)))
    case ECall(g, es) =>
      Cat(Op1(OPushFuncSym, g), Cat(PushAll(f, es), Counted(OFunctionShort, OFunction, Len(es))))
    case EField(o, msg) => Cat(Op1(OMessage, msg), Cat(Push(f, o), Op1(OSendShort, 0)))
    case EMethod(o, msg, es) =>
      Cat(Op1(OMessage, msg), Cat(Push(f, o), Cat(PushAll(f, es), Counted(OSendShort, OSend, Len(es)))))
    case EAliasSym(s) => if s > 255 then Op1(OPushSym, s) else Op1(OPushSymNear, s)
    case EAliased(a, b) =>
      Cat(Op0(OPushAlias), Cat(Push(f, a), Cat(Op0(OPopAlias), Cat(Push(f, b), Op0(OSwapAlias)))))
    case EAssign(l, r) =>
      if l.EField? then Cat(Op1(OMessage, f.setter(l.msg)), Cat(Push(f, l.obj), Cat(Push(f, r), Op1(OSendShort, 1))))
      else Cat(Push(f, r), Cat(Op0(OPushUnref), Pop(f, l)))
    case EOpAssign(_, _, _) => PushOpAssign(f, e)
    case EStep(pre, _, _) => if pre then PushPre(f, e) else PushPost(f, e)
    case EAnd(l, r) =>
      if f.shortcuts then Cat(Push(f, l), Cat(Op0(ODuplicate), When(Cat(Op0(OPop), Push(f, r)))))
      else Cat(Push(f, l), Cat(Push(f, r), Op0(OBin(Rel(LogicalAnd)))))
    case EOr(l, r) =>
      if f.shortcuts then Cat(Push(f, l), Cat(Op0(ODuplicate), Unless(Cat(Op0(OPop), Push(f, r)))))
      else Cat(Push(f, l), Cat(Push(f, r), Op0(OBin(Rel(LogicalOr)))))
    case ENot(l) => Cat(Push(f, l), Op0(OUn(Not)))
    case ENegate(l) => Cat(Push(f, l), Op0(OUn(Negate)))
    case EBin(op, l, r) =>
      match Unit(f, op, l, r)
      case StepRight(inc) => Cat(Push(f, r), Op0(OUn(StepOp(inc))))
      case StepLeft(inc) => Cat(Push(f, l), Op0(OUn(StepOp(inc))))
      case NoStep => Cat(Push(f, l), Cat(Push(f, r), Op0(OBin(op))))
  }

  function PushLast(f: Env, es: Exprs): Asm
    decreases es, 0
  {
    match es
    case NoMore => Skip
    case More(e, NoMore) => Push(f, e)
    case More(e, rest) => Cat(Eff(f, e), PushLast(f, rest))
  }

  function PushAll(f: Env, es: Exprs): Asm
    decreases es, 0
  {
    match es
    case NoMore => Skip
    case More(e, rest) => Cat(Push(f, e), PushAll(f, rest))
  }

  /** The assign message and the object of a field or of a method call. */
  function Target(f: Env, l: Expr): Asm
    requires l.EField? || l.EMethod?
    decreases l, 0
  {
    Cat(Op1(OMessage, f.setter(l.msg)), Push(f, l.obj))
  }

  /** A field update without a reference. In strict mode the object expression is emitted twice. */
  function GetForUpdate(f: Env, l: Expr): Asm
    requires l.EField?
    decreases l, 1
  {
    if f.harbour then
      Cat(Target(f, l), Cat(Op0(ODuplicate), Cat(Op1(OMessage, l.msg), Cat(Op1(OSwap, 0), Op1(OSendShort, 0)))))
    else
      Cat(Target(f, l), Cat(Op1(OMessage, l.msg), Cat(Push(f, l.obj), Op1(OSendShort, 0))))
  }

  function PushOpAssign(f: Env, e: Expr): Asm
    requires e.EOpAssign?
    decreases e, 2
  {
    if AddsInt(f, e) then Cat(AddInt(f, e), Push(f, e.lhs))
    else if UpdatesInPlace(f, e.lhs) then Cat(Ref(f, e.lhs), Cat(Push(f, e.rhs), Op0(OOpEq(e.aop))))
    else if e.lhs.EField? then
      Cat(GetForUpdate(f, e.lhs), Cat(Push(f, e.rhs), Cat(Op0(OBin(Arith(e.aop))), Op1(OSendShort, 1))))
    else
      Cat(Push(f, e.lhs), Cat(Push(f, e.rhs), Cat(Op0(OBin(Arith(e.aop))), Cat(Op0(ODuplicate), Pop(f, e.lhs)))))
  }

  function PushPre(f: Env, e: Expr): Asm
    requires e.EStep?
    decreases e, 2
  {
    var step := Op0(OUn(StepOp(e.inc)));
    if StepsInPlace(f, e.lhs) then
      if e.lhs.EVar? && e.lhs.x.Local? then
        if e.inc then Op1(OLocalIncPush, e.lhs.x.lpos)
        else Cat(Op1(OLocalStep(false), e.lhs.x.lpos), Push(f, e.lhs))
      else Cat(Ref(f, e.lhs), Op0(OStepEq(e.inc)))
    else if e.lhs.EField? then Cat(GetForUpdate(f, e.lhs), Cat(step, Op1(OSendShort, 1)))
    else Cat(Push(f, e.lhs), Cat(step, Cat(Op0(ODuplicate), Pop(f, e.lhs))))
  }

  function PushPost(f: Env, e: Expr): Asm
    requires e.EStep?
    decreases e, 2
  {
    var step := Op0(OUn(StepOp(e.inc)));
    if StepsInPlace(f, e.lhs) then
      if e.lhs.EVar? && e.lhs.x.Local? then
        Cat(Push(f, e.lhs), Op1(OLocalStep(e.inc), e.lhs.x.lpos))
      else Cat(Ref(f, e.lhs), Cat(Op0(ODuplUnref), Op0(OStepEqPop(e.inc))))
    else if e.lhs.EField? && f.harbour then
      Cat(GetForUpdate(f, e.lhs),
          Cat(Op0(ODuplicate), Cat(Op1(OSwap, 2), Cat(step, Cat(Op1(OSendShort, 1), Op0(OPop))))))
    else if e.lhs.EField? then
      Cat(Push(f, e.lhs), Cat(GetForUpdate(f, e.lhs), Cat(step, Cat(Op1(OSendShort, 1), Op0(OPop)))))
    else Cat(Push(f, e.lhs), Cat(Op0(ODuplicate), Cat(step, Pop(f, e.lhs))))
  }

  /** A push by reference. */
  function Ref(f: Env, e: Expr): Asm
    decreases e, 1
  {
    match e
    case EVar(x) => RefVar(x)
    case EIndex(a, i) => Cat(PushBase(f, a), Cat(Push(f, i), Op0(OArrayPushRef)))
    case EField(_, _) => Cat(Target(f, e), Op0(OPushOVarRef))
    case EMethod(_, _, _) => Cat(Target(f, e), Op0(OPushOVarRef))
    case ERef(t) => Ref(f, t)
    case _ => Skip
  }

  function PushBase(f: Env, e: Expr): Asm
    decreases e, 4
  {
    if ByRef(f, e) then Ref(f, e) else Push(f, e)
  }

  // ----- POP_PCODE -----

  /** Stores the value on top of the stack. The message and the object of a field are pushed above
      the value and then rotated below it. */
  function Pop(f: Env, l: Expr): Asm
    decreases l, 5
  {
    match l
    case EVar(x) => PopVar(f, x)
    case EIndex(a, i) => Cat(PushBase(f, a), Cat(Push(f, i), Op0(OArrayPop)))
    case EField(_, _) =>
      Cat(Target(f, l), Cat(Op1(OSwap, 1), Cat(Op1(OSwap, 1), Cat(Op1(OSendShort, 1), Op0(OPop)))))
    case EIif(c, t, n) => Cat(Push(f, c), IfElse(Pop(f, t), Pop(f, n)))
    case _ => Skip
  }

  // ----- PUSH_POP -----

  /** Code run for its effect only; it leaves nothing on the stack. */
  function Eff(f: Env, e: Expr): Asm
    decreases e, 6
  {
    match e
    case ENil => Skip
    case ELogical(_) => Skip
    case ENumber(_) => Skip
    case EAliasSym(_) => Skip
    case ERef(_) => Skip
    case EIif(c, t, n) => Cat(Push(f, c), Branch(Eff(f, t), Eff(f, n)))
    case EList(es) => EffAll(f, es)
    case EArray(es) => EffAll(f, es)
    case EIndex(a, i) => Cat(Eff(f, a), Eff(f, i))
    case ECall(g, es) => Cat(Op1(OPushFuncSym, g), Cat(PushAll(f, es), Counted(ODoShort, ODo, Len(es))))
    case EAliased(a, b) =>
      Cat(Op0(OPushAlias), Cat(Push(f, a), Cat(Op0(OPopAlias), Cat(Eff(f, b), Op0(OPopAlias)))))
    case EAssign(l, r) => if l.EField? then Dropped(f, e) else Cat(Push(f, r), Pop(f, l))
    case EOpAssign(_, _, _) => EffOpAssign(f, e)
    case EStep(_, _, _) => EffStep(f, e)
    case EAnd(l, r) => if f.shortcuts then Cat(Push(f, l), When(Eff(f, r))) else Dropped(f, e)
    case EOr(l, r) => if f.shortcuts then Cat(Push(f, l), Unless(Eff(f, r))) else Dropped(f, e)
    case ENot(l) => if f.harbour then Eff(f, l) else Dropped(f, e)
    case ENegate(l) => if f.harbour then Eff(f, l) else Dropped(f, e)
    case EBin(_, l, r) => if f.harbour then Cat(Eff(f, l), Eff(f, r)) else Dropped(f, e)
    case _ => Dropped(f, e)
  }

  function Dropped(f: Env, e: Expr): Asm
    decreases e, 4
  {
    Cat(Push(f, e), Op0(OPop))
  }

  function EffAll(f: Env, es: Exprs): Asm
    decreases es, 0
  {
    match es
    case NoMore => Skip
    case More(e, rest) => Cat(Eff(f, e), EffAll(f, rest))
  }

  function EffOpAssign(f: Env, e: Expr): Asm
    requires e.EOpAssign?
    decreases e, 5
  {
    if AddsInt(f, e) then AddInt(f, e)
    else if UpdatesInPlace(f, e.lhs) then Cat(Ref(f, e.lhs), Cat(Push(f, e.rhs), Op0(OOpEqPop(e.aop))))
    else if e.lhs.EField? then Dropped(f, e)
    else Cat(Push(f, e.lhs), Cat(Push(f, e.rhs), Cat(Op0(OBin(Arith(e.aop))), Pop(f, e.lhs))))
  }

  /** A step whose value is not used is the same before and after. */
  function EffStep(f: Env, e: Expr): Asm
    requires e.EStep?
    decreases e, 5
  {
    if StepsInPlace(f, e.lhs) then
      if e.lhs.EVar? && e.lhs.x.Local? then Op1(OLocalStep(e.inc), e.lhs.x.lpos)
      else Cat(Ref(f, e.lhs), Op0(OStepEqPop(e.inc)))
    else if e.lhs.EField? then Cat(PushPre(f, e), Op0(OPop))
    else Cat(Push(f, e.lhs), Cat(Op0(OUn(StepOp(e.inc))), Pop(f, e.lhs)))
  }
}
