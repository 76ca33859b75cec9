/** Compiler correctness: emitted code has the meaning of the expression, in every mode, for every
    choice of operators, calls and messages, run-time errors included. */
module Correct {
  import opened Wrappers
  import opened Bytes
  import opened Runtime
  import opened Pcode
  import opened Asm
  import opened Expr
  import opened Compile

  /** What the special instructions rely on: adding a 16-bit literal, and stepping, are the addition
      and subtraction they replace. */
  ghost predicate Lawful(m: Sem)
  {
    && (forall v, k: S16 :: m.addInt(v, k) == m.binary(Arith(Plus), v, Num(k)))
    && (forall v, k: S16 :: k > -0x8000 ==> m.binary(Arith(Minus), v, Num(k)) == m.binary(Arith(Plus), v, Num(-k)))
    && (forall v :: m.unary(Inc, v) == m.binary(Arith(Plus), v, Num(1)) == m.binary(Arith(Plus), Num(1), v))
    && (forall v :: m.unary(Dec, v) == m.binary(Arith(Plus), v, Num(-1)) == m.binary(Arith(Plus), Num(-1), v))
  }

  // ----- results on a stack -----

  function PushItem(st: Stack, r: Option<Pushed>): Option<State>
  {
    var p :- r;
    Some(State(Stack.Item(p.item, st), p.w))
  }

  function PushItems(items: seq<Item>, st: Stack): Stack
  {
    if items == [] then st else PushItems(items[1..], Stack.Item(items[0], st))
  }

  function PushArgs(st: Stack, r: Option<PushedAll>): Option<State>
  {
    var p :- r;
    Some(State(PushItems(p.items, st), p.w))
  }

  function PushPlace(st: Stack, r: Option<Placed>): Option<State>
  {
    var p :- r;
    Some(State(PushRef(p.loc, st), p.w))
  }

  /** Popping as many items as were pushed gives them back in order. */
  lemma {:induction false} TakePushed(items: seq<Item>, st: Stack)
    ensures Take(|items|, PushItems(items, st)) == Some((items, st))
  {
    if items != [] {
      TakePushed(items[1..], Stack.Item(items[0], st));
      TakeMore(|items| - 1, PushItems(items, st), items[1..], Stack.Item(items[0], st));
      assert [items[0]] + items[1..] == items;
    }
  }

  lemma {:induction false} TakeMore(n: nat, s: Stack, items: seq<Item>, below: Stack)
    requires Take(n, s) == Some((items, below)) && below.Item?
    ensures Take(n + 1, s) == Some(([below.top] + items, below.rest))
  {
    if n > 0 {
      var (rest, b) := Take(n - 1, s.rest).value;
      TakeMore(n - 1, s.rest, rest, below);
      assert [below.top] + (rest + [s.top]) == ([below.top] + rest) + [s.top];
    } else {
      assert Take(0, s.rest) == Some(([], s.rest));
      assert [] + [s.top] == [s.top] + [];
    }
  }

  lemma {:induction false} ArgsCount(m: Sem, f: Env, es: Exprs, w: World)
    ensures EvalArgs(m, f, es, w).Some? ==> |EvalArgs(m, f, es, w).value.items| == Len(es)
  {
    hide EvalArg;
    match es
    case NoMore =>
    case More(e, rest) =>
      var p := EvalArg(m, f, e, w);
      if p.Some? {
        ArgsCount(m, f, rest, p.value.w);
      }
  }

  lemma Chain(m: Sem, x: Asm, y: Asm, s: State)
    ensures Den(m, Cat(x, y), s) == if Den(m, x, s).None? then None else Den(m, y, Den(m, x, s).value)
  {
  }

  // ----- variables and literals -----

  lemma NumberOk(m: Sem, n: S64, s: State)
    ensures Den(m, PushNumber(n), s) == Some(State(PushVal(Num(n), s.stack), s.w))
  {
  }

  lemma PushVarOk(m: Sem, f: Env, x: Var, s: State)
    ensures Den(m, PushVar(f, x), s) == PushRead(s, ReadVar(s.w, x))
  {
  }

  lemma PopVarOk(m: Sem, f: Env, x: Var, v: Value, st: Stack, w: World)
    ensures Den(m, PopVar(f, x), State(PushVal(v, st), w)) == Done(st, WriteVar(w, x, v))
  {
  }

  lemma RefVarExec(m: Sem, x: Var, s: State)
    requires HasCell(x)
    ensures Den(m, RefVar(x), s) == PushCellRef(s, CellOf(x))
  {
  }

  lemma RefVarOk(m: Sem, f: Env, x: Var, s: State)
    requires HasCell(x)
    ensures Den(m, RefVar(x), s) == PushPlace(s.stack, Place(m, f, EVar(x), s.w))
  {
    hide Exec, Den, RefVar, CellOf;
    RefVarExec(m, x, s);
  }

  // ----- values -----

  /** PUSH_PCODE code leaves exactly the value of the expression on the untouched stack. */
  lemma {:induction false} PushOk(m: Sem, f: Env, e: Expr, s: State)
    requires Lawful(m) && IsValue(f, e)
    ensures Den(m, Push(f, e), s) == Ret(s.stack, Eval(m, f, e, s.w))
    decreases e, 5
  {
    hide Exec, Lawful, Push, Eval, IsValue, Den;
    match e
    case ENumber(_) => LiteralOk(m, f, e, s);
    case EVar(_) => LiteralOk(m, f, e, s);
    case EIif(_, _, _) => IifOk(m, f, e, s);
    case EList(_) => ListOk(m, f, e, s);
    case EArray(_) => ArrayOk(m, f, e, s);
    case EIndex(_, _) => IndexOk(m, f, e, s);
    case ECall(_, _) => CallOk(m, f, e, s);
    case EField(_, _) => FieldOk(m, f, e, s);
    case EMethod(_, _, _) => MethodOk(m, f, e, s);
    case EAliased(_, _) => AliasedOk(m, f, e, s);
    case EAssign(_, _) => AssignOk(m, f, e, s);
    case EOpAssign(_, _, _) => UpdatingOk(m, f, e, s);
    case EStep(_, _, _) => StepOk(m, f, e, s);
    case EAnd(_, _) => AndOk(m, f, e, s);
    case EOr(_, _) => OrOk(m, f, e, s);
    case ENot(_) => UnaryOk(m, f, e, s);
    case ENegate(_) => UnaryOk(m, f, e, s);
    case EBin(_, _, _) => BinOk(m, f, e, s);
    case ENil => ConstOk(m, f, e, s);
    case ELogical(_) => ConstOk(m, f, e, s);
    case EAliasSym(_) => ConstOk(m, f, e, s);
    case ERef(_) => NotAValue(f, e);
  }

  lemma NotAValue(f: Env, e: Expr)
    requires e.ERef?
    ensures !IsValue(f, e)
  {
  }

  lemma LiteralOk(m: Sem, f: Env, e: Expr, s: State)
    requires e.ENumber? || e.EVar?
    ensures Den(m, Push(f, e), s) == Ret(s.stack, Eval(m, f, e, s.w))
  {
    hide Exec;
    if e.ENumber? {
      NumberOk(m, e.n, s);
    } else {
      PushVarOk(m, f, e.x, s);
    }
  }

  lemma ConstOk(m: Sem, f: Env, e: Expr, s: State)
    requires e.ENil? || e.ELogical? || e.EAliasSym?
    ensures Den(m, Push(f, e), s) == Ret(s.stack, Eval(m, f, e, s.w))
  {
    hide Eval, Push;
    ConstExec(m, if e.ELogical? then e.b else false, if e.EAliasSym? then e.sym else 0, s);
    ConstForms(m, f, e, s.w);
  }

  lemma ConstExec(m: Sem, b: bool, sym: U16, s: State)
    ensures Den(m, Op0(OPushNil), s) == Some(State(PushVal(Nil, s.stack), s.w))
    ensures Den(m, Op0(if b then OTrue else OFalse), s) == Some(State(PushVal(Logical(b), s.stack), s.w))
    ensures Den(m, Op1(OPushSym, sym), s) == Some(State(PushVal(Symbol(sym), s.stack), s.w))
    ensures Den(m, Op1(OPushSymNear, sym), s) == Some(State(PushVal(Symbol(sym), s.stack), s.w))
  {
  }

  lemma ConstForms(m: Sem, f: Env, e: Expr, w: World)
    ensures e.ENil? ==> Push(f, e) == Op0(OPushNil) && Eval(m, f, e, w) == Some(Result(Nil, w))
    ensures e.ELogical? ==>
      Push(f, e) == Op0(if e.b then OTrue else OFalse) && Eval(m, f, e, w) == Some(Result(Logical(e.b), w))
    ensures e.EAliasSym? ==>
      Push(f, e) == (if e.sym > 255 then Op1(OPushSym, e.sym) else Op1(OPushSymNear, e.sym))
      && Eval(m, f, e, w) == Some(Result(Symbol(e.sym), w))
  {
  }

  lemma {:induction false} IifOk(m: Sem, f: Env, e: Expr, s: State)
    requires Lawful(m) && e.EIif? && IsValue(f, e)
    ensures Den(m, Push(f, e), s) == Ret(s.stack, Eval(m, f, e, s.w))
    decreases e, 4
  {
    hide Exec, Lawful;
    PushOk(m, f, e.cond, s);
    var r := Eval(m, f, e.cond, s.w);
    if r.Some? && Truth(r.value.v).Some? {
      PushOk(m, f, if r.value.v.b then e.yes else e.no, State(s.stack, r.value.w));
    }
  }

  lemma {:induction false} ListOk(m: Sem, f: Env, e: Expr, s: State)
    requires Lawful(m) && e.EList? && IsValue(f, e)
    ensures Den(m, Push(f, e), s) == Ret(s.stack, Eval(m, f, e, s.w))
    decreases e, 4
  {
    hide Exec, Lawful, Den;
    LastOk(m, f, e.items, s);
  }

  lemma {:induction false} UpdatingOk(m: Sem, f: Env, e: Expr, s: State)
    requires Lawful(m) && e.EOpAssign? && IsValue(f, e)
    ensures Den(m, Push(f, e), s) == Ret(s.stack, Eval(m, f, e, s.w))
    decreases e, 4
  {
    hide Exec, Lawful, Den, EvalOpAssign, PushOpAssign;
    OpAssignOk(m, f, e, s);
  }

  lemma {:induction false} StepOk(m: Sem, f: Env, e: Expr, s: State)
    requires Lawful(m) && e.EStep? && IsValue(f, e)
    ensures Den(m, Push(f, e), s) == Ret(s.stack, Eval(m, f, e, s.w))
    decreases e, 4
  {
    hide Exec, Lawful, Den, EvalPre, EvalPost, PushPre, PushPost;
    if e.pre {
      PreOk(m, f, e, s);
    } else {
      PostOk(m, f, e, s);
    }
  }

  lemma {:induction false} LastOk(m: Sem, f: Env, es: Exprs, s: State)
    requires Lawful(m) && es.More? && AllValues(f, es)
    ensures Den(m, PushLast(f, es), s) == Ret(s.stack, EvalLast(m, f, es, s.w))
    decreases es, 0
  {
    hide Exec, Lawful, Eval, Effect, Push, Eff;
    if es.tail.NoMore? {
      PushOk(m, f, es.head, s);
    } else {
      EffOk(m, f, es.head, s);
      var w := Effect(m, f, es.head, s.w);
      if w.Some? {
        LastOk(m, f, es.tail, State(s.stack, w.value));
      }
    }
  }

  lemma {:induction false} ArgOk(m: Sem, f: Env, e: Expr, s: State)
    requires Lawful(m) && IsArg(f, e)
    ensures Den(m, Push(f, e), s) == PushItem(s.stack, EvalArg(m, f, e, s.w))
    decreases e, 6
  {
    hide Exec, Lawful, Push, Eval, Den, IsValue;
    if e.ERef? {
      RefArgOk(m, f, e, s);
    } else if e.EIif? {
      IifArgOk(m, f, e, s);
    } else {
      PushOk(m, f, e, s);
    }
  }

  lemma {:induction false} RefArgOk(m: Sem, f: Env, e: Expr, s: State)
    requires Lawful(m) && e.ERef? && IsArg(f, e)
    ensures Den(m, Push(f, e), s) == PushItem(s.stack, EvalArg(m, f, e, s.w))
    decreases e, 4
  {
    hide Exec, Lawful, Den, Ref, Place, IsPlace;
    RefOk(m, f, e.target, s);
  }

  lemma {:induction false} IifArgOk(m: Sem, f: Env, e: Expr, s: State)
    requires Lawful(m) && e.EIif? && IsArg(f, e)
    ensures Den(m, Push(f, e), s) == PushItem(s.stack, EvalArg(m, f, e, s.w))
    decreases e, 4
  {
    hide Exec, Lawful, Eval;
    PushOk(m, f, e.cond, s);
    var r := Eval(m, f, e.cond, s.w);
    if r.Some? && Truth(r.value.v).Some? {
      ArgOk(m, f, if r.value.v.b then e.yes else e.no, State(s.stack, r.value.w));
    }
  }

  lemma {:induction false} ArgsOk(m: Sem, f: Env, es: Exprs, s: State)
    requires Lawful(m) && AllArgs(f, es)
    ensures Den(m, PushAll(f, es), s) == PushArgs(s.stack, EvalArgs(m, f, es, s.w))
    decreases es, 0
  {
    hide Exec, Lawful, EvalArg, Push, IsArg;
    if es.More? {
      ArgOk(m, f, es.head, s);
      var p := EvalArg(m, f, es.head, s.w);
      if p.Some? {
        ArgsOk(m, f, es.tail, State(Stack.Item(p.value.item, s.stack), p.value.w));
      }
    }
  }

  lemma ArrayGenOk(m: Sem, items: seq<Item>, s: State)
    ensures Den(m, Op1(OArrayGen, |items|), State(PushItems(items, s.stack), s.w)) == (
      var vs :- PlainValues(items);
      var (a, w) := NewArray(s.w, vs);
      Some(State(PushVal(a, s.stack), w)))
  {
    TakePushed(items, s.stack);
  }

  lemma {:induction false} ArrayOk(m: Sem, f: Env, e: Expr, s: State)
    requires Lawful(m) && e.EArray? && IsValue(f, e)
    ensures Den(m, Push(f, e), s) == Ret(s.stack, Eval(m, f, e, s.w))
    decreases e, 4
  {
    hide Exec, Lawful;
    ValuesAreArgs(f, e.items);
    ArgsOk(m, f, e.items, s);
    ArgsCount(m, f, e.items, s.w);
    var r := EvalArgs(m, f, e.items, s.w);
    if r.Some? {
      ArrayGenOk(m, r.value.items, State(s.stack, r.value.w));
    }
  }

  lemma {:induction false} ValuesAreArgs(f: Env, es: Exprs)
    requires AllValues(f, es)
    ensures AllArgs(f, es)
  {
    if es.More? {
      ValueIsArg(f, es.head);
      ValuesAreArgs(f, es.tail);
    }
  }

  lemma {:induction false} ValueIsArg(f: Env, e: Expr)
    requires IsValue(f, e)
    ensures IsArg(f, e)
  {
    if e.EIif? {
      ValueIsArg(f, e.yes);
      ValueIsArg(f, e.no);
    }
  }

  lemma ElementOk(m: Sem, a: Value, i: Value, s: State)
    ensures Den(m, Op0(OArrayPush), State(PushVal(i, PushVal(a, s.stack)), s.w)) == PushRead(s, Element(s.w, a, i))
  {
  }

  lemma {:induction false} IndexOk(m: Sem, f: Env, e: Expr, s: State)
    requires Lawful(m) && e.EIndex? && IsValue(f, e)
    ensures Den(m, Push(f, e), s) == Ret(s.stack, Eval(m, f, e, s.w))
    decreases e, 4
  {
    hide Exec, Lawful, Element;
    PushOk(m, f, e.base, s);
    var ra := Eval(m, f, e.base, s.w);
    if ra.Some? {
      var s1 := State(PushVal(ra.value.v, s.stack), ra.value.w);
      Chain(m, Push(f, e.index), Op0(OArrayPush), s1);
      PushOk(m, f, e.index, s1);
      var ri := Eval(m, f, e.index, s1.w);
      if ri.Some? {
        ElementOk(m, ra.value.v, ri.value.v, State(s.stack, ri.value.w));
      }
    }
  }

  /** The frame of a call: the function and the empty receiver. */
  function Callee(g: U16, st: Stack): Stack
  {
    PushVal(Nil, PushVal(Symbol(g), st))
  }

  lemma CalleeOk(m: Sem, g: U16, s: State)
    ensures Den(m, Op1(OPushFuncSym, g), s) == Some(s.(stack := Callee(g, s.stack)))
  {
  }

  lemma FunctionOk(m: Sem, g: U16, args: seq<Item>, s: State)
    ensures Den(m, Counted(OFunctionShort, OFunction, |args|), State(PushItems(args, Callee(g, s.stack)), s.w))
         == Ret(s.stack, DoCall(m, g, args, s.w))
  {
    TakePushed(args, Callee(g, s.stack));
  }

  lemma DoOk(m: Sem, g: U16, args: seq<Item>, s: State)
    ensures Den(m, Counted(ODoShort, ODo, |args|), State(PushItems(args, Callee(g, s.stack)), s.w))
         == NoResult(s.stack, DoCall(m, g, args, s.w))
  {
    TakePushed(args, Callee(g, s.stack));
  }

  lemma {:induction false} CallOk(m: Sem, f: Env, e: Expr, s: State)
    requires Lawful(m) && e.ECall? && IsValue(f, e)
    ensures Den(m, Push(f, e), s) == Ret(s.stack, Eval(m, f, e, s.w))
    ensures Den(m, Eff(f, e), s) == Done(s.stack, Effect(m, f, e, s.w))
    decreases e, 4
  {
    hide Exec, Lawful, Counted;
    CalleeOk(m, e.f, s);
    var s1, n := State(Callee(e.f, s.stack), s.w), Len(e.args);
    Chain(m, PushAll(f, e.args), Counted(OFunctionShort, OFunction, n), s1);
    Chain(m, PushAll(f, e.args), Counted(ODoShort, ODo, n), s1);
    ArgsOk(m, f, e.args, s1);
    ArgsCount(m, f, e.args, s.w);
    var r := EvalArgs(m, f, e.args, s.w);
    if r.Some? {
      FunctionOk(m, e.f, r.value.items, State(s.stack, r.value.w));
      DoOk(m, e.f, r.value.items, State(s.stack, r.value.w));
    }
  }

  // ----- messages -----

  lemma Send0(m: Sem, obj: Value, msg: U16, s: State)
    ensures Den(m, Op1(OSendShort, 0), State(PushVal(obj, PushVal(Symbol(msg), s.stack)), s.w))
         == Ret(s.stack, DoSend(m, obj, msg, [], s.w))
  {
  }

  lemma Send1(m: Sem, obj: Value, msg: U16, v: Value, s: State)
    ensures Den(m, Op1(OSendShort, 1), State(PushVal(v, PushVal(obj, PushVal(Symbol(msg), s.stack))), s.w))
         == Ret(s.stack, DoSend(m, obj, msg, [Val(v)], s.w))
  {
    TakePushed([Val(v)], PushVal(obj, PushVal(Symbol(msg), s.stack)));
    assert PushItems([Val(v)], PushVal(obj, PushVal(Symbol(msg), s.stack))) ==
           PushVal(v, PushVal(obj, PushVal(Symbol(msg), s.stack)));
  }

  lemma SendMany(m: Sem, obj: Value, msg: U16, args: seq<Item>, s: State)
    ensures Den(m, Counted(OSendShort, OSend, |args|),
                State(PushItems(args, PushVal(obj, PushVal(Symbol(msg), s.stack))), s.w))
         == Ret(s.stack, DoSend(m, obj, msg, args, s.w))
  {
    TakePushed(args, PushVal(obj, PushVal(Symbol(msg), s.stack)));
  }

  lemma MessageOk(m: Sem, msg: U16, s: State)
    ensures Den(m, Op1(OMessage, msg), s) == Some(s.(stack := PushVal(Symbol(msg), s.stack)))
  {
  }

  lemma {:induction false} FieldOk(m: Sem, f: Env, e: Expr, s: State)
    requires Lawful(m) && e.EField? && IsValue(f, e)
    ensures Den(m, Push(f, e), s) == Ret(s.stack, Eval(m, f, e, s.w))
    decreases e, 4
  {
    hide Exec, Lawful;
    MessageOk(m, e.msg, s);
    var st := PushVal(Symbol(e.msg), s.stack);
    PushOk(m, f, e.obj, State(st, s.w));
    var r := Eval(m, f, e.obj, s.w);
    if r.Some? {
      Send0(m, r.value.v, e.msg, State(s.stack, r.value.w));
    }
  }

  lemma {:induction false} MethodOk(m: Sem, f: Env, e: Expr, s: State)
    requires Lawful(m) && e.EMethod? && IsValue(f, e)
    ensures Den(m, Push(f, e), s) == Ret(s.stack, Eval(m, f, e, s.w))
    decreases e, 4
  {
    hide Exec, Lawful;
    MessageOk(m, e.msg, s);
    var st := PushVal(Symbol(e.msg), s.stack);
    PushOk(m, f, e.obj, State(st, s.w));
    var r := Eval(m, f, e.obj, s.w);
    if r.Some? {
      var s1 := State(PushVal(r.value.v, st), r.value.w);
      Chain(m, PushAll(f, e.args), Counted(OSendShort, OSend, Len(e.args)), s1);
      ArgsOk(m, f, e.args, s1);
      ArgsCount(m, f, e.args, s1.w);
      var args := EvalArgs(m, f, e.args, s1.w);
      if args.Some? {
        SendMany(m, r.value.v, e.msg, args.value.items, State(s.stack, args.value.w));
      }
    }
  }

  /** The assign message and the object under construction of a field assignment. */
  function Aimed(f: Env, l: Expr, obj: Value, st: Stack): Stack
    requires l.EField? || l.EMethod?
  {
    PushVal(obj, PushVal(Symbol(f.setter(l.msg)), st))
  }

  lemma {:induction false} TargetOk(m: Sem, f: Env, l: Expr, s: State)
    requires Lawful(m) && (l.EField? || l.EMethod?) && IsValue(f, l.obj)
    ensures var r := Eval(m, f, l.obj, s.w);
      Den(m, Target(f, l), s) == if r.None? then None else Some(State(Aimed(f, l, r.value.v, s.stack), r.value.w))
    decreases l, 0
  {
    hide Exec, Lawful;
    MessageOk(m, f.setter(l.msg), s);
    PushOk(m, f, l.obj, State(PushVal(Symbol(f.setter(l.msg)), s.stack), s.w));
  }

  lemma DuplicateOk(m: Sem, v: Value, s: State)
    ensures Den(m, Op0(ODuplicate), State(PushVal(v, s.stack), s.w)) == Some(State(PushVal(v, PushVal(v, s.stack)), s.w))
  {
  }

  lemma Swap0(m: Sem, a: Value, b: Value, s: State)
    ensures Den(m, Op1(OSwap, 0), State(PushVal(a, PushVal(b, s.stack)), s.w))
         == Some(State(PushVal(b, PushVal(a, s.stack)), s.w))
  {
  }

  lemma {:induction false} FetchOk(m: Sem, f: Env, l: Expr, s: State)
    requires Lawful(m) && l.EField? && IsValue(f, l)
    ensures var p := Fetch(m, f, l, s.w);
      Den(m, GetForUpdate(f, l), s) ==
        if p.None? then None else Some(State(PushVal(p.value.cur, Aimed(f, l, p.value.obj, s.stack)), p.value.w))
    decreases l, 5
  {
    hide Exec, Lawful;
    TargetOk(m, f, l, s);
    var r := Eval(m, f, l.obj, s.w);
    if r.Some? {
      var s1 := State(Aimed(f, l, r.value.v, s.stack), r.value.w);
      if f.harbour {
        var o := r.value.v;
        var get := Cat(Op1(OSwap, 0), Op1(OSendShort, 0));
        DuplicateOk(m, o, State(s1.stack.rest, s1.w));
        MessageOk(m, l.msg, State(PushVal(o, s1.stack), s1.w));
        Swap0(m, Symbol(l.msg), o, s1);
        Send0(m, o, l.msg, s1);
        Chain(m, Op1(OMessage, l.msg), get, State(PushVal(o, s1.stack), s1.w));
        Chain(m, Op1(OSwap, 0), Op1(OSendShort, 0), State(PushVal(Symbol(l.msg), PushVal(o, s1.stack)), s1.w));
      } else {
        FieldOk(m, f, l, s1);
      }
    }
  }

  // ----- operators -----

  lemma UnOpOk(m: Sem, op: UnOp, v: Value, s: State)
    ensures Den(m, Op0(OUn(op)), State(PushVal(v, s.stack), s.w)) == PushRead(s, m.unary(op, v))
  {
  }

  lemma BinOpOk(m: Sem, op: BinOp, a: Value, b: Value, s: State)
    ensures Den(m, Op0(OBin(op)), State(PushVal(b, PushVal(a, s.stack)), s.w)) == PushRead(s, m.binary(op, a, b))
  {
  }

  lemma {:induction false} OperandOk(m: Sem, f: Env, e: Expr, op: UnOp, s: State)
    requires Lawful(m) && IsValue(f, e)
    ensures Den(m, Cat(Push(f, e), Op0(OUn(op))), s) == (
      var r :- Eval(m, f, e, s.w);
      PushRead(State(s.stack, r.w), m.unary(op, r.v)))
    decreases e, 6
  {
    hide Exec, Lawful, Push, Eval, IsValue;
    PushOk(m, f, e, s);
    var r := Eval(m, f, e, s.w);
    if r.Some? {
      UnOpOk(m, op, r.value.v, State(s.stack, r.value.w));
    }
  }

  lemma {:induction false} UnaryOk(m: Sem, f: Env, e: Expr, s: State)
    requires Lawful(m) && (e.ENot? || e.ENegate?) && IsValue(f, e)
    ensures Den(m, Push(f, e), s) == Ret(s.stack, Eval(m, f, e, s.w))
    decreases e, 4
  {
    hide Exec, Lawful, Den;
    OperandOk(m, f, e.e, if e.ENot? then Not else Negate, s);
  }

  lemma {:induction false} BothOk(m: Sem, f: Env, op: BinOp, e: Expr, l: Expr, r: Expr, s: State)
    requires Lawful(m) && IsValue(f, l) && IsValue(f, r) && l < e && r < e
    ensures Den(m, Cat(Push(f, l), Cat(Push(f, r), Op0(OBin(op)))), s) == (
      var rl :- Eval(m, f, l, s.w);
      var rr :- Eval(m, f, r, rl.w);
      PushRead(State(s.stack, rr.w), m.binary(op, rl.v, rr.v)))
    decreases e, 0
  {
    hide Exec, Lawful, Push, Eval, IsValue;
    PushOk(m, f, l, s);
    var rl := Eval(m, f, l, s.w);
    if rl.Some? {
      var s1 := State(PushVal(rl.value.v, s.stack), rl.value.w);
      PushOk(m, f, r, s1);
      Chain(m, Push(f, r), Op0(OBin(op)), s1);
      var rr := Eval(m, f, r, s1.w);
      if rr.Some? {
        BinOpOk(m, op, rl.value.v, rr.value.v, State(s.stack, rr.value.w));
      }
    }
  }

  /** Stepping is adding the literal one, on either side, or subtracting it. */
  lemma UnitLaw(m: Sem, f: Env, op: BinOp, l: Expr, r: Expr, v: Value)
    requires Lawful(m)
    ensures Unit(f, op, l, r).StepRight? ==>
      l.ENumber? && m.unary(StepOp(Unit(f, op, l, r).inc), v) == m.binary(op, Num(l.n), v)
    ensures Unit(f, op, l, r).StepLeft? ==>
      r.ENumber? && m.unary(StepOp(Unit(f, op, l, r).inc), v) == m.binary(op, v, Num(r.n))
  {
    if Unit(f, op, l, r).StepLeft? {
      var one: S16 := r.n;
      assert m.binary(Arith(Minus), v, Num(one)) == m.binary(Arith(Plus), v, Num(-one));
    }
  }

  lemma {:induction false} BinOk(m: Sem, f: Env, e: Expr, s: State)
    requires Lawful(m) && e.EBin? && IsValue(f, e)
    ensures Den(m, Push(f, e), s) == Ret(s.stack, Eval(m, f, e, s.w))
    decreases e, 4
  {
    hide Exec, Lawful, Unit, Den;
    match Unit(f, e.op, e.l, e.r)
    case NoStep => BothOk(m, f, e.op, e, e.l, e.r, s);
    case StepRight(inc) =>
      OperandOk(m, f, e.r, StepOp(inc), s);
      var r := Eval(m, f, e.r, s.w);
      UnitLaw(m, f, e.op, e.l, e.r, if r.Some? then r.value.v else Nil);
    case StepLeft(inc) =>
      OperandOk(m, f, e.l, StepOp(inc), s);
      var r := Eval(m, f, e.l, s.w);
      UnitLaw(m, f, e.op, e.l, e.r, if r.Some? then r.value.v else Nil);
  }

  lemma {:induction false} AndOk(m: Sem, f: Env, e: Expr, s: State)
    requires Lawful(m) && e.EAnd? && IsValue(f, e)
    ensures Den(m, Push(f, e), s) == Ret(s.stack, Eval(m, f, e, s.w))
    decreases e, 4
  {
    hide Exec, Lawful;
    if f.shortcuts {
      PushOk(m, f, e.l, s);
      var rl := Eval(m, f, e.l, s.w);
      if rl.Some? {
        RightOk(m, f, e.r, rl.value.v, State(s.stack, rl.value.w));
      }
    } else {
      BothOk(m, f, Rel(LogicalAnd), e, e.l, e.r, s);
    }
  }

  lemma {:induction false} OrOk(m: Sem, f: Env, e: Expr, s: State)
    requires Lawful(m) && e.EOr? && IsValue(f, e)
    ensures Den(m, Push(f, e), s) == Ret(s.stack, Eval(m, f, e, s.w))
    decreases e, 4
  {
    hide Exec, Lawful;
    if f.shortcuts {
      PushOk(m, f, e.l, s);
      var rl := Eval(m, f, e.l, s.w);
      if rl.Some? {
        RightOk(m, f, e.r, rl.value.v, State(s.stack, rl.value.w));
      }
    } else {
      BothOk(m, f, Rel(LogicalOr), e, e.l, e.r, s);
    }
  }

  lemma PopOk0(m: Sem, it: Item, s: State)
    ensures Den(m, Op0(OPop), State(Stack.Item(it, s.stack), s.w)) == Some(s)
  {
  }

  /** The second half of a short-circuit operator: the first value decides, and is kept if the
      second operand is skipped. */
  lemma {:induction false} RightOk(m: Sem, f: Env, r: Expr, v: Value, s: State)
    requires Lawful(m) && IsValue(f, r)
    ensures var s1 := State(PushVal(v, s.stack), s.w);
      && Den(m, Cat(Op0(ODuplicate), When(Cat(Op0(OPop), Push(f, r)))), s1) ==
           (if !v.Logical? then None else if v.b then Ret(s.stack, Eval(m, f, r, s.w)) else Some(s1))
      && Den(m, Cat(Op0(ODuplicate), Unless(Cat(Op0(OPop), Push(f, r)))), s1) ==
           (if !v.Logical? then None else if v.b then Some(s1) else Ret(s.stack, Eval(m, f, r, s.w)))
    decreases r, 6
  {
    hide Exec, Lawful, Push, Eval, IsValue;
    DuplicateOk(m, v, s);
    Chain(m, Op0(OPop), Push(f, r), State(PushVal(v, s.stack), s.w));
    PopOk0(m, Val(v), s);
    PushOk(m, f, r, s);
  }

  // ----- aliased expressions and assignment -----

  lemma AliasOk(m: Sem, v: Value, s: State)
    ensures Den(m, Op0(OPushAlias), s) == Some(State(PushVal(Num(s.w.area), s.stack), s.w))
    ensures Den(m, Op0(OPopAlias), State(PushVal(v, s.stack), s.w)) == Done(s.stack, SelectArea(m, v, s.w))
  {
    hide Exec, SelectArea;
    PushAliasExec(m, s);
    PopAliasExec(m, v, s);
  }

  lemma PushAliasExec(m: Sem, s: State)
    ensures Exec(m, Instr(OPushAlias, 0, 0), s) == Some(State(PushVal(Num(s.w.area), s.stack), s.w))
  {
  }

  lemma PopAliasExec(m: Sem, v: Value, s: State)
    ensures Exec(m, Instr(OPopAlias, 0, 0), State(PushVal(v, s.stack), s.w)) == Done(s.stack, SelectArea(m, v, s.w))
  {
    hide SelectArea;
  }

  /** The saved number selects the saved area again. */
  lemma RestoreOk(m: Sem, v: Value, area: U16, s: State)
    ensures var back := s.w.(area := area);
      && Den(m, Op0(OSwapAlias), State(PushVal(v, PushVal(Num(area), s.stack)), s.w))
           == Some(State(PushVal(v, s.stack), back))
      && Den(m, Op0(OPopAlias), State(PushVal(Num(area), s.stack), s.w)) == Some(State(s.stack, back))
  {
    assert AreaNumber(area) == area;
  }

  lemma {:induction false} SelectOk(m: Sem, f: Env, a: Expr, rest: Asm, s: State)
    requires Lawful(m) && IsValue(f, a)
    ensures Den(m, Cat(Op0(OPushAlias), Cat(Push(f, a), Cat(Op0(OPopAlias), rest))), s) == (
      var ra :- Eval(m, f, a, s.w);
      var w1 :- SelectArea(m, ra.v, ra.w);
      Den(m, rest, State(PushVal(Num(s.w.area), s.stack), w1)))
    decreases a, 6
  {
    hide Exec, Lawful, Push, Eval, IsValue;
    AliasOk(m, Nil, s);
    var st := PushVal(Num(s.w.area), s.stack);
    var select := Cat(Op0(OPopAlias), rest);
    Chain(m, Op0(OPushAlias), Cat(Push(f, a), select), s);
    Chain(m, Push(f, a), select, State(st, s.w));
    PushOk(m, f, a, State(st, s.w));
    var ra := Eval(m, f, a, s.w);
    if ra.Some? {
      Chain(m, Op0(OPopAlias), rest, State(PushVal(ra.value.v, st), ra.value.w));
      AliasOk(m, ra.value.v, State(st, ra.value.w));
    }
  }

  lemma {:induction false} AliasedOk(m: Sem, f: Env, e: Expr, s: State)
    requires Lawful(m) && e.EAliased? && IsValue(f, e)
    ensures Den(m, Push(f, e), s) == Ret(s.stack, Eval(m, f, e, s.w))
    decreases e, 4
  {
    hide Exec, Lawful;
    var body := Cat(Push(f, e.body), Op0(OSwapAlias));
    SelectOk(m, f, e.alias, body, s);
    var ra := Eval(m, f, e.alias, s.w);
    if ra.Some? {
      var w1 := SelectArea(m, ra.value.v, ra.value.w);
      if w1.Some? {
        var s1 := State(PushVal(Num(s.w.area), s.stack), w1.value);
        Chain(m, Push(f, e.body), Op0(OSwapAlias), s1);
        PushOk(m, f, e.body, s1);
        var r := Eval(m, f, e.body, s1.w);
        if r.Some? {
          RestoreOk(m, r.value.v, s.w.area, State(s.stack, r.value.w));
        }
      }
    }
  }

  lemma {:induction false} AssignOk(m: Sem, f: Env, e: Expr, s: State)
    requires Lawful(m) && e.EAssign? && IsValue(f, e)
    ensures Den(m, Push(f, e), s) == Ret(s.stack, Eval(m, f, e, s.w))
    decreases e, 4
  {
    hide Exec, Lawful;
    if e.lhs.EField? {
      PutOk(m, f, e, s);
    } else {
      PushOk(m, f, e.rhs, s);
      var r := Eval(m, f, e.rhs, s.w);
      if r.Some? {
        var s1 := State(PushVal(r.value.v, s.stack), r.value.w);
        Chain(m, Op0(OPushUnref), Pop(f, e.lhs), s1);
        UnrefOk(m, r.value.v, s1);
        PopOk(m, f, e.lhs, r.value.v, s1.stack, s1.w);
      }
    }
  }

  lemma UnrefOk(m: Sem, v: Value, s: State)
    requires s.stack.Item? && s.stack.top == Val(v)
    ensures Den(m, Op0(OPushUnref), s) == Some(State(PushVal(v, s.stack), s.w))
  {
  }

  lemma {:induction false} PutOk(m: Sem, f: Env, e: Expr, s: State)
    requires Lawful(m) && e.EAssign? && e.lhs.EField? && IsValue(f, e)
    ensures Den(m, Push(f, e), s) == Ret(s.stack, Eval(m, f, e, s.w))
    decreases e, 3
  {
    hide Exec, Lawful;
    var l, put := e.lhs, Cat(Push(f, e.rhs), Op1(OSendShort, 1));
    Chain(m, Op1(OMessage, f.setter(l.msg)), Cat(Push(f, l.obj), put), s);
    MessageOk(m, f.setter(l.msg), s);
    var s0 := State(PushVal(Symbol(f.setter(l.msg)), s.stack), s.w);
    Chain(m, Push(f, l.obj), put, s0);
    PushOk(m, f, l.obj, s0);
    var o := Eval(m, f, l.obj, s.w);
    if o.Some? {
      var s1 := State(Aimed(f, l, o.value.v, s.stack), o.value.w);
      Chain(m, Push(f, e.rhs), Op1(OSendShort, 1), s1);
      PushOk(m, f, e.rhs, s1);
      var r := Eval(m, f, e.rhs, s1.w);
      if r.Some? {
        Send1(m, o.value.v, f.setter(l.msg), r.value.v, State(s.stack, r.value.w));
      }
    }
  }

  // ----- places -----

  lemma {:induction false} RefOk(m: Sem, f: Env, e: Expr, s: State)
    requires Lawful(m) && IsPlace(f, e)
    ensures Den(m, Ref(f, e), s) == PushPlace(s.stack, Place(m, f, e, s.w))
    decreases e, 2
  {
    hide Exec, Lawful;
    match e
    case EVar(x) => RefVarOk(m, f, x, s);
    case EIndex(a, i) => ElementRefOk(m, f, e, s);
    case EField(_, _) => ObjectRefOk(m, f, e, s);
    case EMethod(_, _, _) => ObjectRefOk(m, f, e, s);
    case ERef(t) => RefOk(m, f, t, s);
  }

  /** A reference to a field, or to a method call taken for one. */
  lemma {:induction false} ObjectRefOk(m: Sem, f: Env, e: Expr, s: State)
    requires Lawful(m) && (e.EField? || e.EMethod?) && IsPlace(f, e)
    ensures Den(m, Ref(f, e), s) == PushPlace(s.stack, Place(m, f, e, s.w))
    decreases e, 1
  {
    hide Exec, Lawful;
    TargetOk(m, f, e, s);
    var r := Eval(m, f, e.obj, s.w);
    if r.Some? {
      FieldRefOk(m, f, e, r.value.v, State(s.stack, r.value.w));
    }
  }

  lemma FieldRefOk(m: Sem, f: Env, l: Expr, obj: Value, s: State)
    requires l.EField? || l.EMethod?
    ensures Den(m, Op0(OPushOVarRef), State(Aimed(f, l, obj, s.stack), s.w))
         == Some(State(PushRef(MsgLoc(obj, f.setter(l.msg)), s.stack), s.w))
  {
  }

  lemma {:induction false} BaseOk(m: Sem, f: Env, e: Expr, s: State)
    requires Lawful(m) && IsBase(f, e)
    ensures Den(m, PushBase(f, e), s) == PushItem(s.stack, Base(m, f, e, s.w))
    decreases e, 6
  {
    hide Exec, Lawful, Push, Eval, IsValue, Ref, Place, IsPlace;
    if ByRef(f, e) {
      RefOk(m, f, e, s);
    } else {
      PushOk(m, f, e, s);
    }
  }

  /** The base and the index of an element, pushed. */
  lemma {:induction false} SubscriptOk(m: Sem, f: Env, e: Expr, last: Asm, s: State)
    requires Lawful(m) && e.EIndex? && IsBase(f, e.base) && IsValue(f, e.index)
    ensures Den(m, Cat(PushBase(f, e.base), Cat(Push(f, e.index), last)), s) == (
      var b :- Base(m, f, e.base, s.w);
      var ri :- Eval(m, f, e.index, b.w);
      Den(m, last, State(PushVal(ri.v, Stack.Item(b.item, s.stack)), ri.w)))
    decreases e, 0
  {
    hide Exec, Lawful, Push, Eval, IsValue, Base, PushBase, IsBase;
    BaseOk(m, f, e.base, s);
    var b := Base(m, f, e.base, s.w);
    if b.Some? {
      var s1 := State(Stack.Item(b.value.item, s.stack), b.value.w);
      Chain(m, Push(f, e.index), last, s1);
      PushOk(m, f, e.index, s1);
    }
  }

  lemma ArrayRefOk(m: Sem, item: Item, i: Value, s: State)
    ensures Den(m, Op0(OArrayPushRef), State(PushVal(i, Stack.Item(item, s.stack)), s.w)) == (
      var arr :- Followed(m, item, s.w);
      var loc :- ElementLoc(arr.w, arr.v, i);
      Some(State(PushRef(loc, s.stack), arr.w)))
  {
  }

  lemma ArrayPopOk(m: Sem, item: Item, i: Value, v: Value, s: State)
    ensures Den(m, Op0(OArrayPop), State(PushVal(i, Stack.Item(item, PushVal(v, s.stack))), s.w)) == (
      var arr :- Followed(m, item, s.w);
      var loc :- ElementLoc(arr.w, arr.v, i);
      Done(s.stack, Store(m, loc, v, arr.w)))
  {
  }

  lemma {:induction false} ElementRefOk(m: Sem, f: Env, e: Expr, s: State)
    requires Lawful(m) && e.EIndex? && IsBase(f, e.base) && IsValue(f, e.index)
    ensures Den(m, Ref(f, e), s) == PushPlace(s.stack, Place(m, f, e, s.w))
    decreases e, 1
  {
    hide Exec, Lawful, Followed;
    SubscriptOk(m, f, e, Op0(OArrayPushRef), s);
    var b := Base(m, f, e.base, s.w);
    if b.Some? {
      var ri := Eval(m, f, e.index, b.value.w);
      if ri.Some? {
        ArrayRefOk(m, b.value.item, ri.value.v, State(s.stack, ri.value.w));
      }
    }
  }

  // ----- POP_PCODE -----

  /** POP_PCODE code stores the value on top of the stack and removes it. */
  lemma {:induction false} PopOk(m: Sem, f: Env, l: Expr, v: Value, st: Stack, w: World)
    requires Lawful(m) && IsLvalue(f, l)
    ensures Den(m, Pop(f, l), State(PushVal(v, st), w)) == Done(st, Assign(m, f, l, v, w))
    decreases l, 5
  {
    hide Exec, Lawful;
    var s := State(PushVal(v, st), w);
    match l
    case EVar(x) => PopVarOk(m, f, x, v, st, w);
    case EIndex(_, _) => PopElementOk(m, f, l, v, st, w);
    case EField(_, _) => PopFieldOk(m, f, l, v, st, w);
    case EIif(c, t, n) =>
      PushOk(m, f, c, s);
      var r := Eval(m, f, c, w);
      if r.Some? && Truth(r.value.v).Some? {
        PopOk(m, f, if r.value.v.b then t else n, v, st, r.value.w);
      }
  }

  lemma {:induction false} PopElementOk(m: Sem, f: Env, l: Expr, v: Value, st: Stack, w: World)
    requires Lawful(m) && IsLvalue(f, l) && l.EIndex?
    ensures Den(m, Pop(f, l), State(PushVal(v, st), w)) == Done(st, Assign(m, f, l, v, w))
    decreases l, 4
  {
    hide Exec, Lawful, Followed;
    SubscriptOk(m, f, l, Op0(OArrayPop), State(PushVal(v, st), w));
    var b := Base(m, f, l.base, w);
    if b.Some? {
      var ri := Eval(m, f, l.index, b.value.w);
      if ri.Some? {
        ArrayPopOk(m, b.value.item, ri.value.v, v, State(st, ri.value.w));
      }
    }
  }

  /** Two exchanges of three items bring the value above the message and the object. */
  lemma RotateOk(m: Sem, a: Value, b: Value, c: Value, s: State)
    ensures Den(m, Op1(OSwap, 1), State(PushVal(a, PushVal(b, PushVal(c, s.stack))), s.w))
         == Some(State(PushVal(b, PushVal(c, PushVal(a, s.stack))), s.w))
  {
    assert Swap(0, PushVal(a, PushVal(c, s.stack))) == Some(PushVal(c, PushVal(a, s.stack)));
  }

  lemma {:induction false} PopFieldOk(m: Sem, f: Env, l: Expr, v: Value, st: Stack, w: World)
    requires Lawful(m) && IsLvalue(f, l) && l.EField?
    ensures Den(m, Pop(f, l), State(PushVal(v, st), w)) == Done(st, Assign(m, f, l, v, w))
    decreases l, 4
  {
    hide Exec, Lawful;
    var s := State(PushVal(v, st), w);
    TargetOk(m, f, l, s);
    var r := Eval(m, f, l.obj, w);
    if r.Some? {
      var msg, o, s0 := Symbol(f.setter(l.msg)), r.value.v, State(st, r.value.w);
      var send := Cat(Op1(OSendShort, 1), Op0(OPop));
      RotateOk(m, o, msg, v, s0);
      RotateOk(m, msg, v, o, s0);
      Send1(m, o, f.setter(l.msg), v, s0);
      var s1 := State(Aimed(f, l, o, s.stack), r.value.w);
      Chain(m, Op1(OSwap, 1), Cat(Op1(OSwap, 1), send), s1);
      var s2 := State(PushVal(msg, PushVal(v, PushVal(o, st))), r.value.w);
      Chain(m, Op1(OSwap, 1), send, s2);
      var s3 := State(PushVal(v, Aimed(f, l, o, st)), r.value.w);
      Chain(m, Op1(OSendShort, 1), Op0(OPop), s3);
      var put := PutField(m, f, o, l.msg, v, r.value.w);
      if put.Some? {
        PopOk0(m, Val(put.value.v), State(st, put.value.w));
      }
    }
  }

  // ----- op= -----

  lemma AddIntOk(m: Sem, f: Env, e: Expr, s: State)
    requires Lawful(m) && e.EOpAssign? && AddsInt(f, e)
    ensures Den(m, AddInt(f, e), s) ==
      NoResult(s.stack, Update(m, e.aop, CellLoc(LocalCell(e.lhs.x.lpos)), Num(e.rhs.n), s.w))
  {
    var k: S16 := e.rhs.n;
    var cur := Get(s.w, LocalCell(e.lhs.x.lpos));
    if cur.Some? {
      assert k > -0x8000 ==> m.binary(Arith(Minus), cur.value, Num(k)) == m.binary(Arith(Plus), cur.value, Num(-k));
    }
  }

  lemma OpEqOk(m: Sem, op: ArithOp, loc: Loc, v: Value, s: State)
    ensures var s1 := State(PushVal(v, PushRef(loc, s.stack)), s.w);
      && Den(m, Op0(OOpEq(op)), s1) == Ret(s.stack, Update(m, op, loc, v, s.w))
      && Den(m, Op0(OOpEqPop(op)), s1) == NoResult(s.stack, Update(m, op, loc, v, s.w))
  {
  }

  /** What the updated local variable holds is the result. */
  lemma ReadBack(m: Sem, f: Env, pos: LocalPos, r: Outcome, s: State)
    requires r.Some? ==> Get(r.value.w, LocalCell(pos)) == Some(r.value.v)
    ensures r.Some? ==> Den(m, Push(f, EVar(Local(pos))), State(s.stack, r.value.w)) == Ret(s.stack, r)
  {
    hide Exec;
    if r.Some? {
      PushVarOk(m, f, Local(pos), State(s.stack, r.value.w));
    }
  }

  lemma UpdateReads(m: Sem, op: ArithOp, loc: Loc, v: Value, w: World)
    requires loc.CellLoc?
    ensures var r := Update(m, op, loc, v, w); r.Some? ==> Get(r.value.w, loc.cell) == Some(r.value.v)
  {
  }

  lemma StepReads(m: Sem, inc: bool, loc: Loc, w: World)
    requires loc.CellLoc?
    ensures var r := StepLoc(m, inc, loc, w); r.Some? ==> Get(r.value.w, loc.cell) == Some(r.value.v)
  {
  }

  lemma {:induction false} OpAssignOk(m: Sem, f: Env, e: Expr, s: State)
    requires Lawful(m) && e.EOpAssign? && IsValue(f, e)
    ensures Den(m, PushOpAssign(f, e), s) == Ret(s.stack, EvalOpAssign(m, f, e, s.w))
    decreases e, 3
  {
    hide Exec, Lawful, Push, Eval, Update, Fetch, Ref, Place, Pop, Assign;
    if AddsInt(f, e) {
      LocalAddOk(m, f, e, s);
    } else if UpdatesInPlace(f, e.lhs) {
      UpdateOk(m, f, e, Op0(OOpEq(e.aop)), s);
      var p := Place(m, f, e.lhs, s.w);
      if p.Some? {
        var r := Eval(m, f, e.rhs, p.value.w);
        if r.Some? {
          OpEqOk(m, e.aop, p.value.loc, r.value.v, State(s.stack, r.value.w));
        }
      }
    } else if e.lhs.EField? {
      FieldOpAssignOk(m, f, e, s);
    } else {
      GenericOpAssignOk(m, f, e, Cat(Op0(ODuplicate), Pop(f, e.lhs)), s);
      var cur := Eval(m, f, e.lhs, s.w);
      if cur.Some? {
        var r := Eval(m, f, e.rhs, cur.value.w);
        if r.Some? && m.binary(Arith(e.aop), cur.value.v, r.value.v).Some? {
          StoreCopyOk(m, f, e.lhs, m.binary(Arith(e.aop), cur.value.v, r.value.v).value, State(s.stack, r.value.w));
        }
      }
    }
  }

  lemma LocalAddOk(m: Sem, f: Env, e: Expr, s: State)
    requires Lawful(m) && e.EOpAssign? && AddsInt(f, e)
    ensures Den(m, PushOpAssign(f, e), s) == Ret(s.stack, EvalOpAssign(m, f, e, s.w))
    ensures Den(m, EffOpAssign(f, e), s) == Done(s.stack, Discard(EvalOpAssign(m, f, e, s.w)))
  {
    hide Exec, Lawful, Push;
    AddIntOk(m, f, e, s);
    var pos := e.lhs.x.lpos;
    var r := Update(m, e.aop, CellLoc(LocalCell(pos)), Num(e.rhs.n), s.w);
    UpdateReads(m, e.aop, CellLoc(LocalCell(pos)), Num(e.rhs.n), s.w);
    ReadBack(m, f, pos, r, s);
    Chain(m, AddInt(f, e), Push(f, e.lhs), s);
    LocalPlace(m, f, pos, s.w);
  }

  lemma LocalPlace(m: Sem, f: Env, pos: LocalPos, w: World)
    ensures Place(m, f, EVar(Local(pos)), w) ==
      if LocalCell(pos) in w.cells then Some(Placed(CellLoc(LocalCell(pos)), w)) else None
  {
  }

  /** The reference and the right-hand side, pushed. */
  lemma {:induction false} UpdateOk(m: Sem, f: Env, e: Expr, last: Asm, s: State)
    requires Lawful(m) && e.EOpAssign? && IsValue(f, e) && UpdatesInPlace(f, e.lhs)
    ensures Den(m, Cat(Ref(f, e.lhs), Cat(Push(f, e.rhs), last)), s) == (
      var p :- Place(m, f, e.lhs, s.w);
      var r :- Eval(m, f, e.rhs, p.w);
      Den(m, last, State(PushVal(r.v, PushRef(p.loc, s.stack)), r.w)))
    decreases e, 2
  {
    hide Exec, Lawful, Push, Eval, Ref, Place;
    RefOk(m, f, e.lhs, s);
    var p := Place(m, f, e.lhs, s.w);
    if p.Some? {
      var s1 := State(PushRef(p.value.loc, s.stack), p.value.w);
      Chain(m, Push(f, e.rhs), last, s1);
      PushOk(m, f, e.rhs, s1);
    }
  }

  lemma {:induction false} FieldOpAssignOk(m: Sem, f: Env, e: Expr, s: State)
    requires Lawful(m) && e.EOpAssign? && IsValue(f, e) && e.lhs.EField? && !UpdatesInPlace(f, e.lhs)
    ensures Den(m, PushOpAssign(f, e), s) == Ret(s.stack, EvalOpAssign(m, f, e, s.w))
    decreases e, 2
  {
    hide Exec, Lawful, Push, Eval, Update, Fetch, Ref, Place, Pop, Assign, IsLvalue;
    FetchOk(m, f, e.lhs, s);
    var p := Fetch(m, f, e.lhs, s.w);
    if p.Some? {
      var st := Aimed(f, e.lhs, p.value.obj, s.stack);
      var op, send := Op0(OBin(Arith(e.aop))), Op1(OSendShort, 1);
      var s1 := State(PushVal(p.value.cur, st), p.value.w);
      Chain(m, Push(f, e.rhs), Cat(op, send), s1);
      PushOk(m, f, e.rhs, s1);
      var r := Eval(m, f, e.rhs, s1.w);
      if r.Some? {
        Chain(m, op, send, State(PushVal(r.value.v, s1.stack), r.value.w));
        BinOpOk(m, Arith(e.aop), p.value.cur, r.value.v, State(st, r.value.w));
        var v := m.binary(Arith(e.aop), p.value.cur, r.value.v);
        if v.Some? {
          Send1(m, p.value.obj, f.setter(e.lhs.msg), v.value, State(s.stack, r.value.w));
        }
      }
    }
  }

  lemma {:induction false} GenericOpAssignOk(m: Sem, f: Env, e: Expr, last: Asm, s: State)
    requires Lawful(m) && e.EOpAssign? && IsValue(f, e)
    ensures Den(m, Cat(Push(f, e.lhs), Cat(Push(f, e.rhs), Cat(Op0(OBin(Arith(e.aop))), last))), s) == (
      var cur :- Eval(m, f, e.lhs, s.w);
      var r :- Eval(m, f, e.rhs, cur.w);
      var v :- m.binary(Arith(e.aop), cur.v, r.v);
      Den(m, last, State(PushVal(v, s.stack), r.w)))
    decreases e, 2
  {
    hide Exec, Lawful, Push, Eval;
    PushOk(m, f, e.lhs, s);
    var cur := Eval(m, f, e.lhs, s.w);
    if cur.Some? {
      var s1, op := State(PushVal(cur.value.v, s.stack), cur.value.w), Op0(OBin(Arith(e.aop)));
      Chain(m, Push(f, e.rhs), Cat(op, last), s1);
      PushOk(m, f, e.rhs, s1);
      var r := Eval(m, f, e.rhs, s1.w);
      if r.Some? {
        Chain(m, op, last, State(PushVal(r.value.v, s1.stack), r.value.w));
        BinOpOk(m, Arith(e.aop), cur.value.v, r.value.v, State(s.stack, r.value.w));
      }
    }
  }

  /** The new value is stored and a copy of it stays. */
  lemma {:induction false} StoreCopyOk(m: Sem, f: Env, l: Expr, v: Value, s: State)
    requires Lawful(m) && IsLvalue(f, l)
    ensures Den(m, Cat(Op0(ODuplicate), Pop(f, l)), State(PushVal(v, s.stack), s.w)) == (
      var w' :- Assign(m, f, l, v, s.w);
      Some(State(PushVal(v, s.stack), w')))
    decreases l, 6
  {
    hide Exec, Lawful, Pop, Assign, IsLvalue;
    DuplicateOk(m, v, s);
    PopOk(m, f, l, v, PushVal(v, s.stack), s.w);
  }

  // ----- ++ and -- -----

  lemma StepEqOk(m: Sem, inc: bool, loc: Loc, s: State)
    ensures var s1 := State(PushRef(loc, s.stack), s.w);
      && Den(m, Op0(OStepEq(inc)), s1) == Ret(s.stack, StepLoc(m, inc, loc, s.w))
      && Den(m, Op0(OStepEqPop(inc)), s1) == NoResult(s.stack, StepLoc(m, inc, loc, s.w))
  {
  }

  lemma LocalStepOk(m: Sem, inc: bool, pos: LocalPos, s: State)
    ensures var r := StepLoc(m, inc, CellLoc(LocalCell(pos)), s.w);
      && Den(m, Op1(OLocalStep(inc), pos), s) == NoResult(s.stack, r)
      && (inc ==> Den(m, Op1(OLocalIncPush, pos), s) == Ret(s.stack, r))
  {
  }

  lemma {:induction false} PreOk(m: Sem, f: Env, e: Expr, s: State)
    requires Lawful(m) && e.EStep? && IsValue(f, e)
    ensures Den(m, PushPre(f, e), s) == Ret(s.stack, EvalPre(m, f, e, s.w))
    decreases e, 3
  {
    hide Exec, Lawful, Push, Eval, StepLoc, Fetch, Ref, Place, Pop, Assign;
    var step := Op0(OUn(StepOp(e.inc)));
    if StepsInPlace(f, e.lhs) {
      if e.lhs.EVar? && e.lhs.x.Local? {
        LocalPreOk(m, f, e, s);
      } else {
        RefOk(m, f, e.lhs, s);
        var p := Place(m, f, e.lhs, s.w);
        if p.Some? {
          StepEqOk(m, e.inc, p.value.loc, State(s.stack, p.value.w));
        }
      }
    } else if e.lhs.EField? {
      FieldStepOk(m, f, e, s);
    } else {
      GenericStepOk(m, f, e, Cat(Op0(ODuplicate), Pop(f, e.lhs)), s);
      var cur := Eval(m, f, e.lhs, s.w);
      if cur.Some? && m.unary(StepOp(e.inc), cur.value.v).Some? {
        StoreCopyOk(m, f, e.lhs, m.unary(StepOp(e.inc), cur.value.v).value, State(s.stack, cur.value.w));
      }
    }
  }

  lemma LocalPreOk(m: Sem, f: Env, e: Expr, s: State)
    requires e.EStep? && StepsInPlace(f, e.lhs) && e.lhs.EVar? && e.lhs.x.Local?
    ensures Den(m, PushPre(f, e), s) == Ret(s.stack, EvalPre(m, f, e, s.w))
    ensures Den(m, EffStep(f, e), s) == Done(s.stack, Discard(EvalPre(m, f, e, s.w)))
    ensures Den(m, PushPost(f, e), s) == Ret(s.stack, EvalPost(m, f, e, s.w))
  {
    hide Exec, Push;
    var pos := e.lhs.x.lpos;
    LocalStepOk(m, e.inc, pos, s);
    var loc := CellLoc(LocalCell(pos));
    var r := StepLoc(m, e.inc, loc, s.w);
    StepReads(m, e.inc, loc, s.w);
    ReadBack(m, f, pos, r, s);
    LocalPlace(m, f, pos, s.w);
    var cur := Deref(m, loc, s.w);
    ReadBack(m, f, pos, cur, s);
    LocalRead(m, f, pos, s);
    if cur.Some? {
      LocalStepOk(m, e.inc, pos, State(PushVal(cur.value.v, s.stack), s.w));
    }
  }

  lemma LocalRead(m: Sem, f: Env, pos: LocalPos, s: State)
    ensures Den(m, Push(f, EVar(Local(pos))), s) == Ret(s.stack, Deref(m, CellLoc(LocalCell(pos)), s.w))
  {
    hide Exec;
    PushVarOk(m, f, Local(pos), s);
  }

  lemma {:induction false} FieldStepOk(m: Sem, f: Env, e: Expr, s: State)
    requires Lawful(m) && e.EStep? && IsValue(f, e) && e.lhs.EField? && !StepsInPlace(f, e.lhs)
    ensures Den(m, PushPre(f, e), s) == Ret(s.stack, EvalPre(m, f, e, s.w))
    decreases e, 2
  {
    hide Exec, Lawful, Push, Eval, StepLoc, Fetch, Ref, Place, Pop, Assign, IsLvalue;
    FetchOk(m, f, e.lhs, s);
    var p := Fetch(m, f, e.lhs, s.w);
    if p.Some? {
      var st, step := Aimed(f, e.lhs, p.value.obj, s.stack), Op0(OUn(StepOp(e.inc)));
      Chain(m, step, Op1(OSendShort, 1), State(PushVal(p.value.cur, st), p.value.w));
      UnOpOk(m, StepOp(e.inc), p.value.cur, State(st, p.value.w));
      var v := m.unary(StepOp(e.inc), p.value.cur);
      if v.Some? {
        Send1(m, p.value.obj, f.setter(e.lhs.msg), v.value, State(s.stack, p.value.w));
      }
    }
  }

  lemma {:induction false} GenericStepOk(m: Sem, f: Env, e: Expr, last: Asm, s: State)
    requires Lawful(m) && e.EStep? && IsValue(f, e)
    ensures Den(m, Cat(Push(f, e.lhs), Cat(Op0(OUn(StepOp(e.inc))), last)), s) == (
      var cur :- Eval(m, f, e.lhs, s.w);
      var v :- m.unary(StepOp(e.inc), cur.v);
      Den(m, last, State(PushVal(v, s.stack), cur.w)))
    decreases e, 2
  {
    hide Exec, Lawful, Push, Eval;
    PushOk(m, f, e.lhs, s);
    var cur := Eval(m, f, e.lhs, s.w);
    if cur.Some? {
      Chain(m, Op0(OUn(StepOp(e.inc))), last, State(PushVal(cur.value.v, s.stack), cur.value.w));
      UnOpOk(m, StepOp(e.inc), cur.value.v, State(s.stack, cur.value.w));
    }
  }

  lemma {:induction false} PostOk(m: Sem, f: Env, e: Expr, s: State)
    requires Lawful(m) && e.EStep? && IsValue(f, e)
    ensures Den(m, PushPost(f, e), s) == Ret(s.stack, EvalPost(m, f, e, s.w))
    decreases e, 3
  {
    hide Exec, Lawful, Push, Eval, StepLoc, Fetch, Ref, Place, Pop, Assign;
    if StepsInPlace(f, e.lhs) {
      if e.lhs.EVar? && e.lhs.x.Local? {
        LocalPreOk(m, f, e, s);
      } else {
        RefOk(m, f, e.lhs, s);
        var p := Place(m, f, e.lhs, s.w);
        if p.Some? {
          StepAfterReadOk(m, e.inc, p.value.loc, State(s.stack, p.value.w));
        }
      }
    } else if e.lhs.EField? {
      if f.harbour {
        FieldPostOk(m, f, e, s);
      } else {
        StrictPostOk(m, f, e, s);
      }
    } else {
      GenericPostOk(m, f, e, s);
    }
  }

  lemma StepAfterReadOk(m: Sem, inc: bool, loc: Loc, s: State)
    ensures Den(m, Cat(Op0(ODuplUnref), Op0(OStepEqPop(inc))), State(PushRef(loc, s.stack), s.w)) == (
      var cur :- Deref(m, loc, s.w);
      var r :- StepLoc(m, inc, loc, cur.w);
      Some(State(PushVal(cur.v, s.stack), r.w)))
  {
    hide Exec, StepLoc;
    UnrefCopyOk(m, loc, s);
    var cur := Deref(m, loc, s.w);
    if cur.Some? {
      StepEqOk(m, inc, loc, State(PushVal(cur.value.v, s.stack), cur.value.w));
    }
  }

  lemma UnrefCopyOk(m: Sem, loc: Loc, s: State)
    ensures Den(m, Op0(ODuplUnref), State(PushRef(loc, s.stack), s.w)) == (
      var cur :- Deref(m, loc, s.w);
      Some(State(PushRef(loc, PushVal(cur.v, s.stack)), cur.w)))
  {
  }

  /** SWAP 2 turns the top of four items to the bottom: the old value goes below the message. */
  lemma SwapTwo(m: Sem, a: Value, b: Value, c: Value, d: Value, s: State)
    ensures Den(m, Op1(OSwap, 2), State(PushVal(a, PushVal(b, PushVal(c, PushVal(d, s.stack)))), s.w))
         == Some(State(PushVal(b, PushVal(c, PushVal(d, PushVal(a, s.stack)))), s.w))
  {
    assert Swap(0, PushVal(a, PushVal(d, s.stack))) == Some(PushVal(d, PushVal(a, s.stack)));
    assert Swap(1, PushVal(a, PushVal(c, PushVal(d, s.stack)))) == Some(PushVal(c, PushVal(d, PushVal(a, s.stack))));
  }

  /** The tail shared by the field forms: step the fetched value, assign it, drop the reply. */
  lemma {:induction false} StepAndPutOk(m: Sem, f: Env, e: Expr, obj: Value, cur: Value, s: State)
    requires e.EStep? && e.lhs.EField?
    ensures Den(m, Cat(Op0(OUn(StepOp(e.inc))), Cat(Op1(OSendShort, 1), Op0(OPop))),
                State(PushVal(cur, Aimed(f, e.lhs, obj, s.stack)), s.w)) == (
      var v :- m.unary(StepOp(e.inc), cur);
      Done(s.stack, Discard(PutField(m, f, obj, e.lhs.msg, v, s.w))))
  {
    hide Exec;
    var st := Aimed(f, e.lhs, obj, s.stack);
    UnOpOk(m, StepOp(e.inc), cur, State(st, s.w));
    var v := m.unary(StepOp(e.inc), cur);
    if v.Some? {
      var send := Op1(OSendShort, 1);
      Chain(m, send, Op0(OPop), State(PushVal(v.value, st), s.w));
      Send1(m, obj, f.setter(e.lhs.msg), v.value, s);
      var put := PutField(m, f, obj, e.lhs.msg, v.value, s.w);
      if put.Some? {
        PopOk0(m, Val(put.value.v), State(s.stack, put.value.w));
      }
    }
  }

  lemma {:induction false} FieldPostOk(m: Sem, f: Env, e: Expr, s: State)
    requires Lawful(m) && e.EStep? && IsValue(f, e) && e.lhs.EField? && !StepsInPlace(f, e.lhs) && f.harbour
    ensures Den(m, PushPost(f, e), s) == Ret(s.stack, EvalPost(m, f, e, s.w))
    decreases e, 2
  {
    hide Exec, Lawful, Push, Eval, Fetch;
    FetchOk(m, f, e.lhs, s);
    var p := Fetch(m, f, e.lhs, s.w);
    if p.Some? {
      var cur, obj, s1 := p.value.cur, p.value.obj, State(s.stack, p.value.w);
      var put := Cat(Op0(OUn(StepOp(e.inc))), Cat(Op1(OSendShort, 1), Op0(OPop)));
      var st := Aimed(f, e.lhs, obj, s.stack);
      DuplicateOk(m, cur, State(st, s1.w));
      Chain(m, Op0(ODuplicate), Cat(Op1(OSwap, 2), put), State(PushVal(cur, st), s1.w));
      Chain(m, Op1(OSwap, 2), put, State(PushVal(cur, PushVal(cur, st)), s1.w));
      SwapTwo(m, cur, cur, obj, Symbol(f.setter(e.lhs.msg)), s1);
      StepAndPutOk(m, f, e, obj, cur, State(PushVal(cur, s.stack), s1.w));
    }
  }

  lemma {:induction false} StrictPostOk(m: Sem, f: Env, e: Expr, s: State)
    requires Lawful(m) && e.EStep? && IsValue(f, e) && e.lhs.EField? && !StepsInPlace(f, e.lhs) && !f.harbour
    ensures Den(m, PushPost(f, e), s) == Ret(s.stack, EvalPost(m, f, e, s.w))
    decreases e, 2
  {
    hide Exec, Lawful, Fetch, Push, GetForUpdate;
    PushOk(m, f, e.lhs, s);
    var first := Eval(m, f, e.lhs, s.w);
    if first.Some? {
      var s1 := State(PushVal(first.value.v, s.stack), first.value.w);
      var put := Cat(Op0(OUn(StepOp(e.inc))), Cat(Op1(OSendShort, 1), Op0(OPop)));
      Chain(m, GetForUpdate(f, e.lhs), put, s1);
      FetchOk(m, f, e.lhs, s1);
      var p := Fetch(m, f, e.lhs, s1.w);
      if p.Some? {
        StepAndPutOk(m, f, e, p.value.obj, p.value.cur, State(s1.stack, p.value.w));
      }
    }
  }

  lemma {:induction false} GenericPostOk(m: Sem, f: Env, e: Expr, s: State)
    requires Lawful(m) && e.EStep? && IsValue(f, e) && !e.lhs.EField? && !StepsInPlace(f, e.lhs)
    ensures Den(m, PushPost(f, e), s) == Ret(s.stack, EvalPost(m, f, e, s.w))
    decreases e, 2
  {
    hide Exec, Lawful, Push, Eval, Pop, Assign, IsLvalue;
    PushOk(m, f, e.lhs, s);
    var cur := Eval(m, f, e.lhs, s.w);
    if cur.Some? {
      var s1, step := State(s.stack, cur.value.w), Op0(OUn(StepOp(e.inc)));
      var st := PushVal(cur.value.v, s.stack);
      DuplicateOk(m, cur.value.v, s1);
      Chain(m, Op0(ODuplicate), Cat(step, Pop(f, e.lhs)), State(st, s1.w));
      Chain(m, step, Pop(f, e.lhs), State(PushVal(cur.value.v, st), s1.w));
      UnOpOk(m, StepOp(e.inc), cur.value.v, State(st, s1.w));
      var v := m.unary(StepOp(e.inc), cur.value.v);
      if v.Some? {
        PopOk(m, f, e.lhs, v.value, st, s1.w);
      }
    }
  }

  // ----- PUSH_POP -----

  lemma {:induction false} DroppedOk(m: Sem, f: Env, e: Expr, s: State)
    requires Lawful(m) && IsValue(f, e)
    ensures Den(m, Dropped(f, e), s) == Done(s.stack, Discard(Eval(m, f, e, s.w)))
    decreases e, 6
  {
    hide Exec, Lawful, Push, Eval, IsValue;
    PushOk(m, f, e, s);
    var r := Eval(m, f, e, s.w);
    if r.Some? {
      PopOk0(m, Val(r.value.v), State(s.stack, r.value.w));
    }
  }

  /** PUSH_POP code has exactly the effect of the expression and leaves the stack as it was. */
  lemma {:induction false} EffOk(m: Sem, f: Env, e: Expr, s: State)
    requires Lawful(m) && IsValue(f, e)
    ensures Den(m, Eff(f, e), s) == Done(s.stack, Effect(m, f, e, s.w))
    decreases e, 9
  {
    hide Exec, Lawful, Eff, Effect, IsValue, Den;
    match e
    case ENil => EffConstOk(m, f, e, s);
    case ELogical(_) => EffConstOk(m, f, e, s);
    case ENumber(_) => EffConstOk(m, f, e, s);
    case EAliasSym(_) => EffConstOk(m, f, e, s);
    case EIif(_, _, _) => EffIifOk(m, f, e, s);
    case EList(_) => EffListOk(m, f, e, s);
    case EArray(_) => EffListOk(m, f, e, s);
    case EIndex(_, _) => EffTwoOk(m, f, e, s);
    case ECall(_, _) => CallOk(m, f, e, s);
    case EAliased(_, _) => EffAliasedOk(m, f, e, s);
    case EAssign(_, _) => EffAssignOk(m, f, e, s);
    case EOpAssign(_, _, _) => EffUpdatingOk(m, f, e, s);
    case EStep(_, _, _) => EffUpdatingOk(m, f, e, s);
    case EAnd(_, _) => if f.shortcuts { EffShortOk(m, f, e, s); } else { EffDroppedOk(m, f, e, s); }
    case EOr(_, _) => if f.shortcuts { EffShortOk(m, f, e, s); } else { EffDroppedOk(m, f, e, s); }
    case ENot(_) => if f.harbour { EffOneOk(m, f, e, s); } else { EffDroppedOk(m, f, e, s); }
    case ENegate(_) => if f.harbour { EffOneOk(m, f, e, s); } else { EffDroppedOk(m, f, e, s); }
    case EBin(_, _, _) => if f.harbour { EffTwoOk(m, f, e, s); } else { EffDroppedOk(m, f, e, s); }
    case EVar(_) => EffDroppedOk(m, f, e, s);
    case EField(_, _) => EffDroppedOk(m, f, e, s);
    case EMethod(_, _, _) => EffDroppedOk(m, f, e, s);
    case ERef(_) => NotAValue(f, e);
  }

  lemma EffConstOk(m: Sem, f: Env, e: Expr, s: State)
    requires e.ENil? || e.ELogical? || e.ENumber? || e.EAliasSym?
    ensures Den(m, Eff(f, e), s) == Done(s.stack, Effect(m, f, e, s.w))
  {
  }

  /** Expressions that are evaluated and dropped. */
  predicate IsDropped(f: Env, e: Expr)
  {
    || e.EVar? || e.EField? || e.EMethod? || ((e.EAnd? || e.EOr?) && !f.shortcuts)
    || ((e.ENot? || e.ENegate? || e.EBin?) && !f.harbour)
  }

  lemma {:induction false} EffDroppedOk(m: Sem, f: Env, e: Expr, s: State)
    requires Lawful(m) && IsValue(f, e) && IsDropped(f, e)
    ensures Den(m, Eff(f, e), s) == Done(s.stack, Effect(m, f, e, s.w))
    decreases e, 7
  {
    hide Exec, Lawful, Den, Eval, Push, IsValue;
    DroppedOk(m, f, e, s);
  }

  lemma {:induction false} EffOneOk(m: Sem, f: Env, e: Expr, s: State)
    requires Lawful(m) && (e.ENot? || e.ENegate?) && f.harbour && IsValue(f, e)
    ensures Den(m, Eff(f, e), s) == Done(s.stack, Effect(m, f, e, s.w))
    decreases e, 7
  {
    hide Exec, Lawful, Den, Eval, Push;
    EffOk(m, f, e.e, s);
  }

  lemma {:induction false} EffListOk(m: Sem, f: Env, e: Expr, s: State)
    requires Lawful(m) && (e.EList? || e.EArray?) && IsValue(f, e)
    ensures Den(m, Eff(f, e), s) == Done(s.stack, Effect(m, f, e, s.w))
    decreases e, 7
  {
    hide Exec, Lawful, Den, Eval, Push;
    EffAllOk(m, f, e.items, s);
  }

  lemma {:induction false} EffUpdatingOk(m: Sem, f: Env, e: Expr, s: State)
    requires Lawful(m) && (e.EOpAssign? || e.EStep?) && IsValue(f, e)
    ensures Den(m, Eff(f, e), s) == Done(s.stack, Effect(m, f, e, s.w))
    decreases e, 8
  {
    hide Exec, Lawful, Den, Push, IsValue, EvalOpAssign, EvalPre, EffOpAssign, EffStep;
    if e.EOpAssign? {
      EffOpAssignOk(m, f, e, s);
    } else {
      EffStepOk(m, f, e, s);
    }
  }

  lemma {:induction false} EffTwoOk(m: Sem, f: Env, e: Expr, s: State)
    requires Lawful(m) && (e.EIndex? || (e.EBin? && f.harbour)) && IsValue(f, e)
    ensures Den(m, Eff(f, e), s) == Done(s.stack, Effect(m, f, e, s.w))
    decreases e, 7
  {
    hide Exec, Lawful, Den;
    if e.EIndex? {
      EffBothOk(m, f, e, e.base, e.index, s);
    } else {
      EffBothOk(m, f, e, e.l, e.r, s);
    }
  }

  lemma {:induction false} EffBothOk(m: Sem, f: Env, e: Expr, a: Expr, b: Expr, s: State)
    requires Lawful(m) && IsValue(f, a) && IsValue(f, b) && a < e && b < e
    ensures Den(m, Cat(Eff(f, a), Eff(f, b)), s) == (
      var w1 :- Effect(m, f, a, s.w);
      Done(s.stack, Effect(m, f, b, w1)))
    decreases e, 3
  {
    hide Exec, Lawful, Eff, Effect, IsValue;
    EffOk(m, f, a, s);
    var w1 := Effect(m, f, a, s.w);
    if w1.Some? {
      EffOk(m, f, b, State(s.stack, w1.value));
    }
  }

  lemma {:induction false} EffAllOk(m: Sem, f: Env, es: Exprs, s: State)
    requires Lawful(m) && AllValues(f, es)
    ensures Den(m, EffAll(f, es), s) == Done(s.stack, EffectAll(m, f, es, s.w))
    decreases es, 0
  {
    hide Exec, Lawful, Eff, Effect, IsValue;
    if es.More? {
      EffOk(m, f, es.head, s);
      var w := Effect(m, f, es.head, s.w);
      if w.Some? {
        EffAllOk(m, f, es.tail, State(s.stack, w.value));
      }
    }
  }

  lemma {:induction false} EffIifOk(m: Sem, f: Env, e: Expr, s: State)
    requires Lawful(m) && e.EIif? && IsValue(f, e)
    ensures Den(m, Eff(f, e), s) == Done(s.stack, Effect(m, f, e, s.w))
    decreases e, 3
  {
    hide Exec, Lawful, Branch;
    PushOk(m, f, e.cond, s);
    var r := Eval(m, f, e.cond, s.w);
    if r.Some? {
      var s1 := State(PushVal(r.value.v, s.stack), r.value.w);
      BranchMeansIfElse(m, Eff(f, e.yes), Eff(f, e.no), s1);
      if Truth(r.value.v).Some? {
        EffOk(m, f, if r.value.v.b then e.yes else e.no, State(s.stack, r.value.w));
      }
    }
  }

  lemma {:induction false} EffAliasedOk(m: Sem, f: Env, e: Expr, s: State)
    requires Lawful(m) && e.EAliased? && IsValue(f, e)
    ensures Den(m, Eff(f, e), s) == Done(s.stack, Effect(m, f, e, s.w))
    decreases e, 3
  {
    hide Exec, Lawful;
    var body := Cat(Eff(f, e.body), Op0(OPopAlias));
    SelectOk(m, f, e.alias, body, s);
    var ra := Eval(m, f, e.alias, s.w);
    if ra.Some? {
      var w1 := SelectArea(m, ra.value.v, ra.value.w);
      if w1.Some? {
        var s1 := State(PushVal(Num(s.w.area), s.stack), w1.value);
        Chain(m, Eff(f, e.body), Op0(OPopAlias), s1);
        EffOk(m, f, e.body, s1);
        var w2 := Effect(m, f, e.body, s1.w);
        if w2.Some? {
          RestoreOk(m, Nil, s.w.area, State(s.stack, w2.value));
        }
      }
    }
  }

  lemma {:induction false} EffAssignOk(m: Sem, f: Env, e: Expr, s: State)
    requires Lawful(m) && e.EAssign? && IsValue(f, e)
    ensures Den(m, Eff(f, e), s) == Done(s.stack, Effect(m, f, e, s.w))
    decreases e, 7
  {
    hide Exec, Lawful;
    if e.lhs.EField? {
      DroppedOk(m, f, e, s);
    } else {
      PushOk(m, f, e.rhs, s);
      var r := Eval(m, f, e.rhs, s.w);
      if r.Some? {
        PopOk(m, f, e.lhs, r.value.v, s.stack, r.value.w);
      }
    }
  }

  lemma UpdateIsEval(m: Sem, f: Env, e: Expr, w: World)
    requires e.EOpAssign?
    ensures Eval(m, f, e, w) == EvalOpAssign(m, f, e, w)
  {
    hide EvalOpAssign;
  }

  lemma {:induction false} EffOpAssignOk(m: Sem, f: Env, e: Expr, s: State)
    requires Lawful(m) && e.EOpAssign? && IsValue(f, e)
    ensures Den(m, EffOpAssign(f, e), s) == Done(s.stack, Discard(EvalOpAssign(m, f, e, s.w)))
    decreases e, 7
  {
    hide Exec, Lawful, Push, Eval, Update, Fetch, Ref, Place, Pop, Assign;
    if AddsInt(f, e) {
      LocalAddOk(m, f, e, s);
    } else if UpdatesInPlace(f, e.lhs) {
      UpdateOk(m, f, e, Op0(OOpEqPop(e.aop)), s);
      var p := Place(m, f, e.lhs, s.w);
      if p.Some? {
        var r := Eval(m, f, e.rhs, p.value.w);
        if r.Some? {
          OpEqOk(m, e.aop, p.value.loc, r.value.v, State(s.stack, r.value.w));
        }
      }
    } else if e.lhs.EField? {
      DroppedOk(m, f, e, s);
      UpdateIsEval(m, f, e, s.w);
    } else {
      GenericOpAssignOk(m, f, e, Pop(f, e.lhs), s);
      var cur := Eval(m, f, e.lhs, s.w);
      if cur.Some? {
        var r := Eval(m, f, e.rhs, cur.value.w);
        if r.Some? && m.binary(Arith(e.aop), cur.value.v, r.value.v).Some? {
          PopOk(m, f, e.lhs, m.binary(Arith(e.aop), cur.value.v, r.value.v).value, s.stack, r.value.w);
        }
      }
    }
  }

  lemma {:induction false} EffStepOk(m: Sem, f: Env, e: Expr, s: State)
    requires Lawful(m) && e.EStep? && IsValue(f, e)
    ensures Den(m, EffStep(f, e), s) == Done(s.stack, Discard(EvalPre(m, f, e, s.w)))
    decreases e, 7
  {
    hide Exec, Lawful, Push, Eval, StepLoc, Fetch, Ref, Place, Pop, Assign;
    if StepsInPlace(f, e.lhs) {
      if e.lhs.EVar? && e.lhs.x.Local? {
        LocalPreOk(m, f, e, s);
      } else {
        RefOk(m, f, e.lhs, s);
        var p := Place(m, f, e.lhs, s.w);
        if p.Some? {
          StepEqOk(m, e.inc, p.value.loc, State(s.stack, p.value.w));
        }
      }
    } else if e.lhs.EField? {
      EffFieldStepOk(m, f, e, s);
    } else {
      GenericStepOk(m, f, e, Pop(f, e.lhs), s);
      var cur := Eval(m, f, e.lhs, s.w);
      if cur.Some? && m.unary(StepOp(e.inc), cur.value.v).Some? {
        PopOk(m, f, e.lhs, m.unary(StepOp(e.inc), cur.value.v).value, s.stack, cur.value.w);
      }
    }
  }

  lemma {:induction false} EffFieldStepOk(m: Sem, f: Env, e: Expr, s: State)
    requires Lawful(m) && e.EStep? && IsValue(f, e) && e.lhs.EField? && !StepsInPlace(f, e.lhs)
    ensures Den(m, EffStep(f, e), s) == Done(s.stack, Discard(EvalPre(m, f, e, s.w)))
    decreases e, 4
  {
    hide Exec, Lawful, PushPre, EvalPre;
    FieldStepOk(m, f, e, s);
    var r := EvalPre(m, f, e, s.w);
    if r.Some? {
      PopOk0(m, Val(r.value.v), State(s.stack, r.value.w));
    }
  }

  /** Short-circuit operators run for their effect. */
  lemma {:induction false} EffShortOk(m: Sem, f: Env, e: Expr, s: State)
    requires Lawful(m) && f.shortcuts && (e.EAnd? || e.EOr?) && IsValue(f, e)
    ensures Den(m, Eff(f, e), s) == Done(s.stack, Effect(m, f, e, s.w))
    decreases e, 7
  {
    hide Exec, Lawful, Push, Eval;
    PushOk(m, f, e.l, s);
    var rl := Eval(m, f, e.l, s.w);
    if rl.Some? {
      EffOk(m, f, e.r, State(s.stack, rl.value.w));
    }
  }

  // ----- the main theorem -----

  /** The code emitted for an expression, placed anywhere in a program and started on any stack and
      in any world, runs to its end with the value on top of the untouched stack, in the world the
      evaluation leaves; and it fails exactly when the evaluation fails. */
  lemma CompilerCorrect(m: Sem, f: Env, e: Expr, code: seq<byte>, p: int, s: State)
    requires Lawful(m) && IsValue(f, e) && Sound(Push(f, e)) && At(code, p, CodeOf(Push(f, e)))
    ensures Yields(m, code, Config(p, s), At2(p + |CodeOf(Push(f, e))|, Ret(s.stack, Eval(m, f, e, s.w))))
  {
    hide *;
    Runs(m, code, p, Push(f, e), s);
    PushOk(m, f, e, s);
  }

  /** The same for code run for its effect: the stack is left as it was. */
  lemma EffectCorrect(m: Sem, f: Env, e: Expr, code: seq<byte>, p: int, s: State)
    requires Lawful(m) && IsValue(f, e) && Sound(Eff(f, e)) && At(code, p, CodeOf(Eff(f, e)))
    ensures Yields(m, code, Config(p, s), At2(p + |CodeOf(Eff(f, e))|, Done(s.stack, Effect(m, f, e, s.w))))
  {
    hide *;
    Runs(m, code, p, Eff(f, e), s);
    EffOk(m, f, e, s);
  }

  /** The same for a store: the value is taken from the stack. */
  lemma AssignCorrect(m: Sem, f: Env, l: Expr, v: Value, code: seq<byte>, p: int, st: Stack, w: World)
    requires Lawful(m) && IsLvalue(f, l) && Sound(Pop(f, l)) && At(code, p, CodeOf(Pop(f, l)))
    ensures Yields(m, code, Config(p, State(PushVal(v, st), w)),
                   At2(p + |CodeOf(Pop(f, l))|, Done(st, Assign(m, f, l, v, w))))
  {
    hide *;
    Runs(m, code, p, Pop(f, l), State(PushVal(v, st), w));
    PopOk(m, f, l, v, st, w);
  }
}
