/** Expressions after parsing, and what they mean: value, effect, place and assignment, independent
    of any instruction sequence. */
module Expr {
  import opened Wrappers
  import opened Runtime

  /** Compilation switches and context. `harbour` is off in strict Clipper mode, `extopt` are the
      extended optimisations, `shortcuts` the short-circuit operators, `arrstr` strings used as byte
      arrays; `block` holds inside a codeblock, `setter` maps a message to its assign message, and `bits`
      tells the functions that the compiler knows to be hb_bitAnd, hb_bitOr and hb_bitXor. */
  datatype Env = Env(harbour: bool, extopt: bool, shortcuts: bool, arrstr: bool, block: bool,
    setter: U16 -> U16, bits: U16 -> Option<BitOp>)

  datatype Expr =
    | ENil
    | ELogical(b: bool)
    | ENumber(n: S64)
    | EVar(x: Var)
    | ERef(target: Expr)
    | EIif(cond: Expr, yes: Expr, no: Expr)
    | EList(items: Exprs)
    | EArray(items: Exprs)
    | EIndex(base: Expr, index: Expr)
    | ECall(f: U16, args: Exprs)
    | EField(obj: Expr, msg: U16)
    | EMethod(obj: Expr, msg: U16, args: Exprs)
    | EAliasSym(sym: U16)
    | EAliased(alias: Expr, body: Expr)
    | EAssign(lhs: Expr, rhs: Expr)
    | EOpAssign(aop: ArithOp, lhs: Expr, rhs: Expr)
    | EStep(pre: bool, inc: bool, lhs: Expr)
    | EAnd(l: Expr, r: Expr)
    | EOr(l: Expr, r: Expr)
    | ENot(e: Expr)
    | ENegate(e: Expr)
    | EBin(op: BinOp, l: Expr, r: Expr)

  /** Lists are linked, as in the syntax tree. */
  datatype Exprs = NoMore | More(head: Expr, tail: Exprs)

  function Len(es: Exprs): nat
  {
    if es.NoMore? then 0 else 1 + Len(es.tail)
  }

  function ListOf(es: seq<Expr>): Exprs
  {
    if es == [] then NoMore else More(es[0], ListOf(es[1..]))
  }

  const MAX_ARGS := 0xFFFF

  // ----- expressions the compiler accepts -----

  /** Usable where a value is wanted. */
  predicate IsValue(f: Env, e: Expr)
    decreases e, 0
  {
    match e
    case ENil => true
    case ELogical(_) => true
    case ENumber(_) => true
    case EVar(_) => true
    case ERef(_) => false
    case EIif(c, t, n) => IsValue(f, c) && IsValue(f, t) && IsValue(f, n)
    case EList(es) => es.More? && AllValues(f, es)
    case EArray(es) => AllValues(f, es) && Len(es) <= MAX_ARGS
    case EIndex(a, i) => IsValue(f, a) && IsValue(f, i)
    case ECall(_, es) => AllArgs(f, es) && Len(es) <= MAX_ARGS
    case EField(o, _) => IsValue(f, o)
    case EMethod(o, _, es) => IsValue(f, o) && AllArgs(f, es) && Len(es) <= MAX_ARGS
    case EAliasSym(_) => true
    case EAliased(a, b) => IsValue(f, a) && IsValue(f, b)
    case EAssign(l, r) => IsLvalue(f, l) && IsValue(f, r)
    case EOpAssign(_, l, r) => IsLvalue(f, l) && IsValue(f, l) && IsValue(f, r)
    case EStep(_, _, l) => IsLvalue(f, l) && IsValue(f, l)
    case EAnd(l, r) => IsValue(f, l) && IsValue(f, r)
    case EOr(l, r) => IsValue(f, l) && IsValue(f, r)
    case ENot(l) => IsValue(f, l)
    case ENegate(l) => IsValue(f, l)
    case EBin(op, l, r) => op != Rel(LogicalAnd) && op != Rel(LogicalOr) && IsValue(f, l) && IsValue(f, r)
  }

  predicate AllValues(f: Env, es: Exprs)
    decreases es, 0
  {
    es.NoMore? || (IsValue(f, es.head) && AllValues(f, es.tail))
  }

  /** Usable as an argument: a value, a reference, or a choice between such. */
  predicate IsArg(f: Env, e: Expr)
    decreases e, 2
  {
    match e
    case ERef(t) => IsPlace(f, t)
    case EIif(c, t, n) => IsValue(f, c) && IsArg(f, t) && IsArg(f, n)
    case _ => IsValue(f, e)
  }

  predicate AllArgs(f: Env, es: Exprs)
    decreases es, 0
  {
    es.NoMore? || (IsArg(f, es.head) && AllArgs(f, es.tail))
  }

  /** Variables that can be passed by reference: fields cannot. */
  predicate HasCell(x: Var)
  {
    !x.FieldVar?
  }

  /** Usable after `@` or pushed by reference. A method call is treated as a field: its arguments are
      not looked at. */
  predicate IsPlace(f: Env, e: Expr)
    decreases e, 1
  {
    match e
    case EVar(x) => HasCell(x)
    case EIndex(a, i) => IsBase(f, a) && IsValue(f, i)
    case EField(o, _) => IsValue(f, o)
    case EMethod(o, _, _) => IsValue(f, o)
    case ERef(t) => IsPlace(f, t)
    case _ => false
  }

  /** Strings used as arrays need a reference, where one can be had. */
  predicate ByRef(f: Env, e: Expr)
  {
    f.arrstr && (e.EVar? || e.EIndex? || e.EField? || e.EMethod?)
  }

  /** The array of an element access that may be written. */
  predicate IsBase(f: Env, e: Expr)
    decreases e, 2
  {
    if ByRef(f, e) then IsPlace(f, e) else IsValue(f, e)
  }

  predicate IsLvalue(f: Env, e: Expr)
    decreases e, 2
  {
    match e
    case EVar(_) => true
    case EIndex(a, i) => IsBase(f, a) && IsValue(f, i)
    case EField(o, _) => IsValue(f, o)
    case EIif(c, t, n) => f.harbour && IsValue(f, c) && IsLvalue(f, t) && IsLvalue(f, n)
    case _ => false
  }

  /** Left-hand sides that `op=` updates through a reference. */
  predicate UpdatesInPlace(f: Env, l: Expr)
  {
    match l
    case EVar(x) => f.harbour && !x.FieldVar? && !x.Undeclared?
    case EIndex(_, _) => f.harbour
    case EField(_, _) => f.harbour && f.extopt
    case _ => false
  }

  /** Left-hand sides that `++` and `--` step through a reference. */
  predicate StepsInPlace(f: Env, l: Expr)
  {
    if l.EField? then f.extopt else UpdatesInPlace(f, l)
  }

  // ----- meaning -----

  datatype Placed = Placed(loc: Loc, w: World)
  datatype Pushed = Pushed(item: Item, w: World)
  datatype PushedAll = PushedAll(items: seq<Item>, w: World)

  function CellOf(x: Var): Cell
    requires HasCell(x)
  {
    match x
    case Local(p) => LocalCell(p)
    case BlockLocal(p) => LocalCell(p)
    case Static(s) => StaticCell(s)
    case Memvar(s) => MemvarCell(s)
    case Undeclared(s) => MemvarCell(s)
  }

  function Truth(v: Value): Option<bool>
  {
    if v.Logical? then Some(v.b) else None
  }

  /** Sends the assign message of the field. */
  function PutField(m: Sem, f: Env, obj: Value, msg: U16, v: Value, w: World): Outcome
  {
    DoSend(m, obj, f.setter(msg), [Val(v)], w)
  }

  function GetField(m: Sem, obj: Value, msg: U16, w: World): Outcome
  {
    DoSend(m, obj, msg, [], w)
  }

  /** The value of an expression and the world it leaves; `None` is a run-time error. */
  function Eval(m: Sem, f: Env, e: Expr, w: World): Outcome
    decreases e, 3
  {
    match e
    case ENil => Some(Result(Nil, w))
    case ELogical(b) => Some(Result(Logical(b), w))
    case ENumber(n) => Some(Result(Num(n), w))
    case EVar(x) =>
      var v :- ReadVar(w, x);
      Some(Result(v, w))
    case ERef(_) => None
    case EIif(c, t, n) =>
      var r :- Eval(m, f, c, w);
      var b :- Truth(r.v);
      if b then Eval(m, f, t, r.w) else Eval(m, f, n, r.w)
    case EList(es) => EvalLast(m, f, es, w)
    case EArray(es) =>
      var r :- EvalArgs(m, f, es, w);
      var vs :- PlainValues(r.items);
      var (a, w') := NewArray(r.w, vs);
      Some(Result(a, w'))
    case EIndex(a, i) =>
      var ra :- Eval(m, f, a, w);
      var ri :- Eval(m, f, i, ra.w);
      var v :- Element(ri.w, ra.v, ri.v);
      Some(Result(v, ri.w))
    case ECall(g, es) =>
      var r :- EvalArgs(m, f, es, w);
      DoCall(m, g, r.items, r.w)
    case EField(o, msg) =>
      var r :- Eval(m, f, o, w);
      GetField(m, r.v, msg, r.w)
    case EMethod(o, msg, es) =>
      var r :- Eval(m, f, o, w);
      var args :- EvalArgs(m, f, es, r.w);
      DoSend(m, r.v, msg, args.items, args.w)
    case EAliasSym(s) => Some(Result(Symbol(s), w))
    case EAliased(a, b) =>
      var ra :- Eval(m, f, a, w);
      var w1 :- SelectArea(m, ra.v, ra.w);
      var r :- Eval(m, f, b, w1);
      Some(r.(w := r.w.(area := w.area)))
    case EAssign(l, r) =>
      if l.EField? then
        var ro :- Eval(m, f, l.obj, w);
        var rv :- Eval(m, f, r, ro.w);
        PutField(m, f, ro.v, l.msg, rv.v, rv.w)
      else
        var rv :- Eval(m, f, r, w);
        var w' :- Assign(m, f, l, rv.v, rv.w);
        Some(Result(rv.v, w'))
    case EOpAssign(_, _, _) => EvalOpAssign(m, f, e, w)
    case EStep(pre, _, _) => if pre then EvalPre(m, f, e, w) else EvalPost(m, f, e, w)
    case EAnd(l, r) =>
      var rl :- Eval(m, f, l, w);
      if f.shortcuts then
        var b :- Truth(rl.v);
        if b then Eval(m, f, r, rl.w) else Some(rl)
      else
        var rr :- Eval(m, f, r, rl.w);
        var v :- m.binary(Rel(LogicalAnd), rl.v, rr.v);
        Some(Result(v, rr.w))
    case EOr(l, r) =>
      var rl :- Eval(m, f, l, w);
      if f.shortcuts then
        var b :- Truth(rl.v);
        if b then Some(rl) else Eval(m, f, r, rl.w)
      else
        var rr :- Eval(m, f, r, rl.w);
        var v :- m.binary(Rel(LogicalOr), rl.v, rr.v);
        Some(Result(v, rr.w))
    case ENot(l) =>
      var r :- Eval(m, f, l, w);
      var v :- m.unary(Not, r.v);
      Some(r.(v := v))
    case ENegate(l) =>
      var r :- Eval(m, f, l, w);
      var v :- m.unary(Negate, r.v);
      Some(r.(v := v))
    case EBin(op, l, r) =>
      var rl :- Eval(m, f, l, w);
      var rr :- Eval(m, f, r, rl.w);
      var v :- m.binary(op, rl.v, rr.v);
      Some(Result(v, rr.w))
  }

  /** All but the last expression are evaluated for their effect. */
  function EvalLast(m: Sem, f: Env, es: Exprs, w: World): Outcome
    decreases es, 0
  {
    match es
    case NoMore => None
    case More(e, NoMore) => Eval(m, f, e, w)
    case More(e, rest) =>
      var w1 :- Effect(m, f, e, w);
      EvalLast(m, f, rest, w1)
  }

  /** The object that will be assigned to and the old value of its field. */
  datatype Fetched = Fetched(obj: Value, cur: Value, w: World)

  function Fetch(m: Sem, f: Env, l: Expr, w: World): Option<Fetched>
    requires l.EField?
    decreases l, 0
  {
    var o :- Eval(m, f, l.obj, w);
    var o2 :- if f.harbour then Some(o) else Eval(m, f, l.obj, o.w);
    var cur :- GetField(m, o2.v, l.msg, o2.w);
    Some(Fetched(o.v, cur.v, cur.w))
  }

  /** `l op= r`. A place is found once, and its old value is read after `r`. In strict mode an
      object is evaluated twice, and the old value is read before `r`. */
  function EvalOpAssign(m: Sem, f: Env, e: Expr, w: World): Outcome
    requires e.EOpAssign?
    decreases e, 1
  {
    if UpdatesInPlace(f, e.lhs) then
      var p :- Place(m, f, e.lhs, w);
      var r :- Eval(m, f, e.rhs, p.w);
      Update(m, e.aop, p.loc, r.v, r.w)
    else if e.lhs.EField? then
      var p :- Fetch(m, f, e.lhs, w);
      var r :- Eval(m, f, e.rhs, p.w);
      var v :- m.binary(Arith(e.aop), p.cur, r.v);
      PutField(m, f, p.obj, e.lhs.msg, v, r.w)
    else
      var cur :- Eval(m, f, e.lhs, w);
      var r :- Eval(m, f, e.rhs, cur.w);
      var v :- m.binary(Arith(e.aop), cur.v, r.v);
      var w' :- Assign(m, f, e.lhs, v, r.w);
      Some(Result(v, w'))
  }

  /** `++l` and `--l`. */
  function EvalPre(m: Sem, f: Env, e: Expr, w: World): Outcome
    requires e.EStep?
    decreases e, 1
  {
    if StepsInPlace(f, e.lhs) then
      var p :- Place(m, f, e.lhs, w);
      StepLoc(m, e.inc, p.loc, p.w)
    else if e.lhs.EField? then
      var p :- Fetch(m, f, e.lhs, w);
      var v :- m.unary(StepOp(e.inc), p.cur);
      PutField(m, f, p.obj, e.lhs.msg, v, p.w)
    else
      var cur :- Eval(m, f, e.lhs, w);
      var v :- m.unary(StepOp(e.inc), cur.v);
      var w' :- Assign(m, f, e.lhs, v, cur.w);
      Some(Result(v, w'))
  }

  /** `l++` and `l--`: the result is the value read first, and a place is read a second time to be
      stepped. In strict mode a field is read twice as well. */
  function EvalPost(m: Sem, f: Env, e: Expr, w: World): Outcome
    requires e.EStep?
    decreases e, 2
  {
    if StepsInPlace(f, e.lhs) then
      var p :- Place(m, f, e.lhs, w);
      var cur :- Deref(m, p.loc, p.w);
      var r :- StepLoc(m, e.inc, p.loc, cur.w);
      Some(Result(cur.v, r.w))
    else if e.lhs.EField? && f.harbour then
      var p :- Fetch(m, f, e.lhs, w);
      var v :- m.unary(StepOp(e.inc), p.cur);
      var r :- PutField(m, f, p.obj, e.lhs.msg, v, p.w);
      Some(Result(p.cur, r.w))
    else if e.lhs.EField? then
      var first :- Eval(m, f, e.lhs, w);
      var r :- EvalPre(m, f, e, first.w);
      Some(Result(first.v, r.w))
    else
      var cur :- Eval(m, f, e.lhs, w);
      var v :- m.unary(StepOp(e.inc), cur.v);
      var w' :- Assign(m, f, e.lhs, v, cur.w);
      Some(Result(cur.v, w'))
  }

  /** An argument is pushed as a value or as a reference. */
  function EvalArg(m: Sem, f: Env, e: Expr, w: World): Option<Pushed>
    decreases e, 4
  {
    if e.ERef? then
      var p :- Place(m, f, e.target, w);
      Some(Pushed(RefTo(p.loc), p.w))
    else if e.EIif? then
      var r :- Eval(m, f, e.cond, w);
      var b :- Truth(r.v);
      if b then EvalArg(m, f, e.yes, r.w) else EvalArg(m, f, e.no, r.w)
    else
      var r :- Eval(m, f, e, w);
      Some(Pushed(Val(r.v), r.w))
  }

  function EvalArgs(m: Sem, f: Env, es: Exprs, w: World): Option<PushedAll>
    decreases es, 0
  {
    match es
    case NoMore => Some(PushedAll([], w))
    case More(e, rest) =>
      var p :- EvalArg(m, f, e, w);
      var r :- EvalArgs(m, f, rest, p.w);
      Some(PushedAll([p.item] + r.items, r.w))
  }

  /** What a reference to the expression points at. */
  function Place(m: Sem, f: Env, e: Expr, w: World): Option<Placed>
    decreases e, 1
  {
    if e.EVar? then
      if HasCell(e.x) && CellOf(e.x) in w.cells then Some(Placed(CellLoc(CellOf(e.x)), w)) else None
    else if e.EIndex? then
      var b :- Base(m, f, e.base, w);
      var ri :- Eval(m, f, e.index, b.w);
      var arr :- Followed(m, b.item, ri.w);
      var loc :- ElementLoc(arr.w, arr.v, ri.v);
      Some(Placed(loc, arr.w))
    else if e.EField? || e.EMethod? then
      var r :- Eval(m, f, e.obj, w);
      Some(Placed(MsgLoc(r.v, f.setter(e.msg)), r.w))
    else if e.ERef? then Place(m, f, e.target, w)
    else if e.EIif? then
      var r :- Eval(m, f, e.cond, w);
      var b :- Truth(r.v);
      if b then Place(m, f, e.yes, r.w) else Place(m, f, e.no, r.w)
    else None
  }

  /** The array of a written element: with `arrstr` it is located first and read after the index. */
  function Base(m: Sem, f: Env, e: Expr, w: World): Option<Pushed>
    decreases e, 4
  {
    if ByRef(f, e) then
      var p :- Place(m, f, e, w);
      Some(Pushed(RefTo(p.loc), p.w))
    else
      var r :- Eval(m, f, e, w);
      Some(Pushed(Val(r.v), r.w))
  }

  /** Stores a value that has already been computed. */
  function Assign(m: Sem, f: Env, l: Expr, v: Value, w: World): Option<World>
    decreases l, 4
  {
    if l.EVar? then WriteVar(w, l.x, v)
    else if l.EIndex? then
      var p :- Place(m, f, l, w);
      Store(m, p.loc, v, p.w)
    else if l.EField? then
      var r :- Eval(m, f, l.obj, w);
      var r' :- PutField(m, f, r.v, l.msg, v, r.w);
      Some(r'.w)
    else if l.EIif? then
      var r :- Eval(m, f, l.cond, w);
      var b :- Truth(r.v);
      if b then Assign(m, f, l.yes, v, r.w) else Assign(m, f, l.no, v, r.w)
    else None
  }

  function Discard(r: Outcome): Option<World>
  {
    var r' :- r;
    Some(r'.w)
  }

  /** The world after the expression was evaluated for its effect only. Parts whose values cannot
      matter are not computed: a literal array is not built, an element access is not checked, and
      outside strict mode the operators of Not, Negate and EBin are not applied. */
  function Effect(m: Sem, f: Env, e: Expr, w: World): Option<World>
    decreases e, 5
  {
    match e
    case ENil => Some(w)
    case ELogical(_) => Some(w)
    case ENumber(_) => Some(w)
    case EAliasSym(_) => Some(w)
    case EIif(c, t, n) =>
      var r :- Eval(m, f, c, w);
      var b :- Truth(r.v);
      if b then Effect(m, f, t, r.w) else Effect(m, f, n, r.w)
    case EList(es) => EffectAll(m, f, es, w)
    case EArray(es) => EffectAll(m, f, es, w)
    case EIndex(a, i) =>
      var w1 :- Effect(m, f, a, w);
      Effect(m, f, i, w1)
    case EAliased(a, b) =>
      var ra :- Eval(m, f, a, w);
      var w1 :- SelectArea(m, ra.v, ra.w);
      var w2 :- Effect(m, f, b, w1);
      Some(w2.(area := w.area))
    case EStep(_, _, _) => Discard(EvalPre(m, f, e, w))
    case EAnd(l, r) =>
      if !f.shortcuts then Discard(Eval(m, f, e, w))
      else
        var rl :- Eval(m, f, l, w);
        var b :- Truth(rl.v);
        if b then Effect(m, f, r, rl.w) else Some(rl.w)
    case EOr(l, r) =>
      if !f.shortcuts then Discard(Eval(m, f, e, w))
      else
        var rl :- Eval(m, f, l, w);
        var b :- Truth(rl.v);
        if b then Some(rl.w) else Effect(m, f, r, rl.w)
    case ENot(l) => if f.harbour then Effect(m, f, l, w) else Discard(Eval(m, f, e, w))
    case ENegate(l) => if f.harbour then Effect(m, f, l, w) else Discard(Eval(m, f, e, w))
    case EBin(_, l, r) =>
      if f.harbour then
        var w1 :- Effect(m, f, l, w);
        Effect(m, f, r, w1)
      else Discard(Eval(m, f, e, w))
    case _ => Discard(Eval(m, f, e, w))
  }

  function EffectAll(m: Sem, f: Env, es: Exprs, w: World): Option<World>
    decreases es, 0
  {
    match es
    case NoMore => Some(w)
    case More(e, rest) =>
      var w1 :- Effect(m, f, e, w);
      EffectAll(m, f, rest, w1)
  }
}
