/** The world a pcode program runs in: items, variables, arrays, objects and the current work area.

    What the virtual machine computes outside the instructions modelled here (operators on items,
    called functions, message sends, alias look-up) is collected in a `Sem`: every theorem holds
    for every choice of these functions. */
module Runtime {
  import opened Wrappers

  type U8 = n: int | 0 <= n < 0x100
  type U16 = n: int | 0 <= n < 0x10000
  type S16 = n: int | -0x8000 <= n < 0x8000
  type S64 = n: int | -0x8000_0000_0000_0000 <= n < 0x8000_0000_0000_0000
  type LocalPos = n: int | 1 <= n < 0x8000 witness 1
  type BlockPos = n: int | -0x8000 <= n < 0 witness -1

  /** A value of the language. `Other` stands for the item types the compiler never looks into. */
  datatype Value =
    | Nil
    | Logical(b: bool)
    | Num(n: int)
    | Dbl(r: real)
    | Date(julian: int)
    | Array(id: nat)
    | Symbol(sym: U16)
    | Other(tag: int)

  /** Storage a variable name can be bound to; a field belongs to a work area. */
  datatype Cell =
    | LocalCell(pos: int)
    | StaticCell(sid: U16)
    | MemvarCell(msym: U16)
    | FieldCell(area: U16, fsym: U16)

  /** What a by-reference item points at: a variable, an array element, or an object variable
      reached through its access and assign messages. */
  datatype Loc =
    | CellLoc(cell: Cell)
    | ElemLoc(arr: nat, index: int)
    | MsgLoc(obj: Value, setter: U16)

  /** An item of the evaluation stack. */
  datatype Item = Val(v: Value) | RefTo(loc: Loc)

  datatype Event = Called(fsym: U16, fargs: seq<Item>) | Sent(obj: Value, msg: U16, sargs: seq<Item>)

  /** `trace` records every call and send, so `Sem` functions may depend on the whole history. */
  datatype World = World(
    cells: map<Cell, Value>,
    heap: seq<seq<Value>>,
    area: U16,
    trace: seq<Event>)

  datatype ArithOp = Plus | Minus | Mult | Divide | Modulus | Power
  datatype RelOp = Equal | ExactlyEqual | NotEqual | Less | LessEqual | Greater | GreaterEqual
                 | InString | LogicalAnd | LogicalOr
  datatype BinOp = Arith(a: ArithOp) | Rel(r: RelOp)
  datatype UnOp = Not | Negate | Inc | Dec
  datatype BitOp = BitAnd | BitOr | BitXor

  /** A value together with the world in which it was obtained. */
  datatype Result = Result(v: Value, w: World)

  /** `None` is a run-time error. */
  type Outcome = Option<Result>

  datatype Sem = Sem(
    binary: (BinOp, Value, Value) -> Option<Value>,
    unary: (UnOp, Value) -> Option<Value>,
    addInt: (Value, int) -> Option<Value>,
    call: (U16, seq<Item>, World) -> Outcome,
    send: (Value, U16, seq<Item>, World) -> Outcome,
    alias: (Value, World) -> Option<U16>,
    getter: U16 -> U16)

  /** A variable as the compiler resolves its name: scope and position in that scope. */
  datatype Var =
    | Local(lpos: LocalPos)
    | BlockLocal(bpos: BlockPos)
    | Static(ssid: U16)
    | Memvar(mvsym: U16)
    | FieldVar(fvsym: U16)
    | Undeclared(usym: U16)

  // ----- variables -----

  function Get(w: World, c: Cell): Option<Value>
  {
    if c in w.cells then Some(w.cells[c]) else None
  }

  /** An undeclared name is first tried as a field of the current work area, then as a memvar. */
  function ReadVar(w: World, x: Var): Option<Value>
  {
    match x
    case Local(p) => Get(w, LocalCell(p))
    case BlockLocal(p) => Get(w, LocalCell(p))
    case Static(s) => Get(w, StaticCell(s))
    case Memvar(s) => Get(w, MemvarCell(s))
    case FieldVar(s) => Get(w, FieldCell(w.area, s))
    case Undeclared(s) =>
      if FieldCell(w.area, s) in w.cells then Get(w, FieldCell(w.area, s)) else Get(w, MemvarCell(s))
  }

  /** Assigning to an undeclared name always goes to a memvar; assigning to a field that the
      work area does not have is an error. */
  function WriteVar(w: World, x: Var, v: Value): Option<World>
  {
    match x
    case Local(p) => Some(w.(cells := w.cells[LocalCell(p) := v]))
    case BlockLocal(p) => Some(w.(cells := w.cells[LocalCell(p) := v]))
    case Static(s) => Some(w.(cells := w.cells[StaticCell(s) := v]))
    case Memvar(s) => Some(w.(cells := w.cells[MemvarCell(s) := v]))
    case FieldVar(s) =>
      if FieldCell(w.area, s) in w.cells then Some(w.(cells := w.cells[FieldCell(w.area, s) := v])) else None
    case Undeclared(s) => Some(w.(cells := w.cells[MemvarCell(s) := v]))
  }

  // ----- arrays -----

  function Truncate(r: real): int
  {
    if r >= 0.0 then r.Floor else -((-r).Floor)
  }

  function IndexOf(i: Value): Option<int>
  {
    match i
    case Num(n) => Some(n)
    case Dbl(r) => Some(Truncate(r))
    case _ => None
  }

  function ElementLoc(w: World, a: Value, i: Value): Option<Loc>
  {
    var k :- IndexOf(i);
    if a.Array? && a.id < |w.heap| && 1 <= k <= |w.heap[a.id]| then Some(ElemLoc(a.id, k)) else None
  }

  predicate ValidElem(w: World, arr: nat, k: int)
  {
    arr < |w.heap| && 1 <= k <= |w.heap[arr]|
  }

  function Element(w: World, a: Value, i: Value): Option<Value>
  {
    var loc :- ElementLoc(w, a, i);
    Some(w.heap[loc.arr][loc.index - 1])
  }

  function NewArray(w: World, items: seq<Value>): (Value, World)
  {
    (Array(|w.heap|), w.(heap := w.heap + [items]))
  }

  // ----- calls, messages, references -----

  function DoCall(m: Sem, f: U16, args: seq<Item>, w: World): Outcome
  {
    m.call(f, args, w.(trace := w.trace + [Called(f, args)]))
  }

  function DoSend(m: Sem, obj: Value, msg: U16, args: seq<Item>, w: World): Outcome
  {
    m.send(obj, msg, args, w.(trace := w.trace + [Sent(obj, msg, args)]))
  }

  function Deref(m: Sem, loc: Loc, w: World): Outcome
  {
    match loc
    case CellLoc(c) => if c in w.cells then Some(Result(w.cells[c], w)) else None
    case ElemLoc(a, k) => if ValidElem(w, a, k) then Some(Result(w.heap[a][k - 1], w)) else None
    case MsgLoc(o, s) => DoSend(m, o, m.getter(s), [], w)
  }

  function Store(m: Sem, loc: Loc, v: Value, w: World): Option<World>
  {
    match loc
    case CellLoc(c) => Some(w.(cells := w.cells[c := v]))
    case ElemLoc(a, k) =>
      if ValidElem(w, a, k) then Some(w.(heap := w.heap[a := w.heap[a][k - 1 := v]])) else None
    case MsgLoc(o, s) =>
      var r :- DoSend(m, o, s, [Val(v)], w);
      Some(r.w)
  }

  function StepOp(inc: bool): UnOp
  {
    if inc then Inc else Dec
  }

  /** `*loc := *loc op v`, with the new value as outcome. */
  function Update(m: Sem, op: ArithOp, loc: Loc, v: Value, w: World): Outcome
  {
    var cur :- Deref(m, loc, w);
    var r :- m.binary(Arith(op), cur.v, v);
    var w' :- Store(m, loc, r, cur.w);
    Some(Result(r, w'))
  }

  /** `++*loc` or `--*loc`, with the new value as outcome. */
  function StepLoc(m: Sem, inc: bool, loc: Loc, w: World): Outcome
  {
    var cur :- Deref(m, loc, w);
    var r :- m.unary(StepOp(inc), cur.v);
    var w' :- Store(m, loc, r, cur.w);
    Some(Result(r, w'))
  }

  /** What an array-base item stands for: a reference is followed first. */
  function Followed(m: Sem, it: Item, w: World): Outcome
  {
    match it
    case Val(v) => Some(Result(v, w))
    case RefTo(loc) => Deref(m, loc, w)
  }

  function PlainValues(items: seq<Item>): Option<seq<Value>>
  {
    if items == [] then Some([])
    else if items[0].RefTo? then None
    else
      var vs :- PlainValues(items[1..]);
      Some([items[0].v] + vs)
  }

  // ----- work areas -----

  const MAX_AREA := 65535

  /** Numbers outside 1..65535 select area 0. */
  function AreaNumber(n: int): U16
  {
    if n < 1 || n > MAX_AREA then 0 else n
  }

  function SelectArea(m: Sem, v: Value, w: World): Option<World>
  {
    match v
    case Num(n) => Some(w.(area := AreaNumber(n)))
    case Dbl(r) => Some(w.(area := AreaNumber(Truncate(r))))
    case Symbol(_) => var a :- m.alias(v, w); Some(w.(area := a))
    case Other(_) => var a :- m.alias(v, w); Some(w.(area := a))
    case _ => Some(w.(area := 0))
  }
}
