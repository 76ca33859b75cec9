/** The encodings of `x op= e`, `++` and `--` on a variable agree, and `v := v op e` may be compiled as
    `v op= e`, provided `e` leaves the variable alone. */
module Encodings {
  import opened Wrappers
  import opened Bytes
  import opened Runtime
  import opened Pcode
  import opened Asm
  import opened Expr
  import opened Compile
  import opened Correct
  import opened Forms
  import Arithmetic

  // ----- expressions that cannot write a variable -----

  /** A variable, and whether calls and messages are known to spare it unless they are given a
      reference to it. */
  datatype Watched = Watched(cell: Cell, calls: bool)

  /** No assignment to the variable, no reference to it, and no call or message if it is not known what
      code they run. */
  predicate Leaves(c: Watched, e: Expr)
  {
    match e
    case ENil => true
    case ELogical(_) => true
    case ENumber(_) => true
    case EVar(_) => true
    case ERef(t) => c.calls && Spares(c, t) && Leaves(c, t)
    case EIif(q, t, n) => Leaves(c, q) && Leaves(c, t) && Leaves(c, n)
    case EList(es) => AllLeave(c, es)
    case EArray(es) => AllLeave(c, es)
    case EIndex(a, i) => Leaves(c, a) && Leaves(c, i)
    case ECall(_, es) => c.calls && AllLeave(c, es)
    case EField(o, _) => c.calls && Leaves(c, o)
    case EMethod(o, _, es) => c.calls && Leaves(c, o) && AllLeave(c, es)
    case EAliasSym(_) => true
    case EAliased(a, b) => Leaves(c, a) && Leaves(c, b)
    case EAssign(l, r) => Spares(c, l) && Leaves(c, l) && Leaves(c, r)
    case EOpAssign(_, l, r) => Spares(c, l) && Leaves(c, l) && Leaves(c, r)
    case EStep(_, _, l) => Spares(c, l) && Leaves(c, l)
    case EAnd(l, r) => Leaves(c, l) && Leaves(c, r)
    case EOr(l, r) => Leaves(c, l) && Leaves(c, r)
    case ENot(l) => Leaves(c, l)
    case ENegate(l) => Leaves(c, l)
    case EBin(_, l, r) => Leaves(c, l) && Leaves(c, r)
  }

  predicate AllLeave(c: Watched, es: Exprs)
  {
    es.NoMore? || (Leaves(c, es.head) && AllLeave(c, es.tail))
  }

  /** Assigning to the left-hand side does not assign to the variable. */
  predicate Spares(c: Watched, l: Expr)
  {
    match l
    case EVar(x) => x.FieldVar? || CellOf(x) != c.cell
    case EIndex(_, _) => true
    case EField(_, _) => c.calls
    case EMethod(_, _, _) => c.calls
    case ERef(t) => Spares(c, t)
    case EIif(_, t, n) => Spares(c, t) && Spares(c, n)
    case _ => false
  }

  /** What is not handed a reference to the cell does not write it. */
  ghost predicate Spared(m: Sem, c: Cell)
  {
    && (forall g, args, w :: RefTo(CellLoc(c)) !in args && m.call(g, args, w).Some? ==>
          Get(m.call(g, args, w).value.w, c) == Get(w, c))
    && (forall o, msg, args, w :: RefTo(CellLoc(c)) !in args && m.send(o, msg, args, w).Some? ==>
          Get(m.send(o, msg, args, w).value.w, c) == Get(w, c))
  }

  /** Fields of work areas are a different storage. */
  ghost predicate Watches(m: Sem, c: Watched)
  {
    !c.cell.FieldCell? && (c.calls ==> Spared(m, c.cell))
  }

  predicate Kept(c: Watched, w: World, w': World)
  {
    Get(w', c.cell) == Get(w, c.cell)
  }

  predicate KeptAfter(c: Watched, w: World, r: Outcome)
  {
    r.Some? ==> Kept(c, w, r.value.w)
  }

  predicate KeptIn(c: Watched, w: World, r: Option<World>)
  {
    r.Some? ==> Kept(c, w, r.value)
  }

  predicate Away(c: Watched, loc: Loc)
  {
    (loc.MsgLoc? ==> c.calls) && loc != CellLoc(c.cell)
  }

  lemma StoreKeeps(m: Sem, loc: Loc, v: Value, w: World, c: Watched)
    requires Away(c, loc) && Watches(m, c)
    ensures KeptIn(c, w, Store(m, loc, v, w))
  {
  }

  lemma SendKeeps(m: Sem, o: Value, msg: U16, args: seq<Item>, w: World, c: Watched)
    requires c.calls && Watches(m, c) && RefTo(CellLoc(c.cell)) !in args
    ensures KeptAfter(c, w, DoSend(m, o, msg, args, w))
  {
    assert Get(w.(trace := w.trace + [Sent(o, msg, args)]), c.cell) == Get(w, c.cell);
  }

  lemma CallKeeps(m: Sem, g: U16, args: seq<Item>, w: World, c: Watched)
    requires c.calls && Watches(m, c) && RefTo(CellLoc(c.cell)) !in args
    ensures KeptAfter(c, w, DoCall(m, g, args, w))
  {
    assert Get(w.(trace := w.trace + [Called(g, args)]), c.cell) == Get(w, c.cell);
  }

  lemma ReadKeeps(m: Sem, loc: Loc, w: World, c: Watched)
    requires (loc.MsgLoc? ==> c.calls) && Watches(m, c)
    ensures KeptAfter(c, w, Deref(m, loc, w))
  {
    hide Watches;
    if loc.MsgLoc? {
      SendKeeps(m, loc.obj, m.getter(loc.setter), [], w, c);
    }
  }

  lemma UpdateKeeps(m: Sem, op: ArithOp, inc: bool, loc: Loc, v: Value, w: World, c: Watched)
    requires Away(c, loc) && Watches(m, c)
    ensures KeptAfter(c, w, Update(m, op, loc, v, w))
    ensures KeptAfter(c, w, StepLoc(m, inc, loc, w))
  {
    hide Store, Deref, Watches;
    ReadKeeps(m, loc, w, c);
    var cur := Deref(m, loc, w);
    if cur.Some? {
      var r, r2 := m.binary(Arith(op), cur.value.v, v), m.unary(StepOp(inc), cur.value.v);
      if r.Some? { StoreKeeps(m, loc, r.value, cur.value.w, c); }
      if r2.Some? { StoreKeeps(m, loc, r2.value, cur.value.w, c); }
    }
  }

  // ----- evaluating such an expression keeps the variable -----

  lemma {:induction false} EvalKeeps(m: Sem, f: Env, e: Expr, w: World, c: Watched)
    requires Leaves(c, e) && Watches(m, c)
    ensures KeptAfter(c, w, Eval(m, f, e, w))
    decreases e, 4
  {
    hide Eval, Kept, Watches, Leaves;
    match e
    case EIif(_, _, _) => IifKeeps(m, f, e, w, c);
    case EArray(_) => ArrayKeeps(m, f, e, w, c);
    case EIndex(_, _) => OperatorKeeps(m, f, e, w, c);
    case ECall(_, _) => CallingKeeps(m, f, e, w, c);
    case EField(_, _) => CallingKeeps(m, f, e, w, c);
    case EMethod(_, _, _) => CallingKeeps(m, f, e, w, c);
    case EAliased(_, _) => AliasedKeeps(m, f, e, w, c);
    case EAssign(_, _) => AssignedKeeps(m, f, e, w, c);
    case EList(_) => OtherKeeps(m, f, e, w, c);
    case EOpAssign(_, _, _) => OtherKeeps(m, f, e, w, c);
    case EStep(_, _, _) => OtherKeeps(m, f, e, w, c);
    case EAnd(_, _) => OperatorKeeps(m, f, e, w, c);
    case EOr(_, _) => OperatorKeeps(m, f, e, w, c);
    case ENot(_) => OperatorKeeps(m, f, e, w, c);
    case ENegate(_) => OperatorKeeps(m, f, e, w, c);
    case EBin(_, _, _) => OperatorKeeps(m, f, e, w, c);
    case _ => LeafKeeps(m, f, e, w, c);
  }

  lemma {:induction false} OperatorKeeps(m: Sem, f: Env, e: Expr, w: World, c: Watched)
    requires (e.EIndex? || e.EAnd? || e.EOr? || e.ENot? || e.ENegate? || e.EBin?) && Leaves(c, e) && Watches(m, c)
    ensures KeptAfter(c, w, Eval(m, f, e, w))
    decreases e, 3
  {
    hide Eval, Effect, Kept, Watches, Element;
    OperatorForm(m, f, e, w);
    ShortForm(m, f, e, w);
    if e.ENot? || e.ENegate? {
      EvalKeeps(m, f, e.e, w, c);
    } else if e.EIndex? {
      PairKeeps(m, f, e, e.base, e.index, w, c);
    } else {
      PairKeeps(m, f, e, e.l, e.r, w, c);
    }
  }

  lemma {:induction false} OtherKeeps(m: Sem, f: Env, e: Expr, w: World, c: Watched)
    requires (e.EList? || e.EOpAssign? || e.EStep?) && Leaves(c, e) && Watches(m, c)
    ensures KeptAfter(c, w, Eval(m, f, e, w))
    decreases e, 3
  {
    hide Eval, Effect, Kept, Watches, EvalLast, EvalOpAssign, EvalPre, EvalPost;
    if e.EList? {
      ListForm(m, f, e, w);
      LastKeeps(m, f, e.items, w, c);
    } else if e.EStep? {
      AssignForm(m, f, e, w);
      StepKeeps(m, f, e, w, c);
    } else {
      AssignForm(m, f, e, w);
      OpAssignKeeps(m, f, e, w, c);
    }
  }

  lemma LeafKeeps(m: Sem, f: Env, e: Expr, w: World, c: Watched)
    requires e.ENil? || e.ELogical? || e.ENumber? || e.EVar? || e.EAliasSym? || e.ERef?
    ensures KeptAfter(c, w, Eval(m, f, e, w))
  {
  }

  lemma {:induction false} IifKeeps(m: Sem, f: Env, e: Expr, w: World, c: Watched)
    requires e.EIif? && Leaves(c, e) && Watches(m, c)
    ensures KeptAfter(c, w, Eval(m, f, e, w))
    decreases e, 3
  {
    hide Eval, Effect, EvalArg, Watches;
    ChoiceForm(m, f, e, w);
    EvalKeeps(m, f, e.cond, w, c);
    var r := Eval(m, f, e.cond, w);
    if r.Some? {
      EvalKeeps(m, f, e.yes, r.value.w, c);
      EvalKeeps(m, f, e.no, r.value.w, c);
    }
  }

  lemma {:induction false} CallingKeeps(m: Sem, f: Env, e: Expr, w: World, c: Watched)
    requires (e.ECall? || e.EField? || e.EMethod?) && Leaves(c, e) && Watches(m, c)
    ensures KeptAfter(c, w, Eval(m, f, e, w))
    decreases e, 3
  {
    hide Eval, Effect, Watches, DoSend, DoCall, EvalArgs, Leaves;
    LeavesParts(c, e);
    if e.ECall? {
      ListForm(m, f, e, w);
      ArgsKeep(m, f, e.args, w, c);
      var args := EvalArgs(m, f, e.args, w);
      if args.Some? {
        CallKeeps(m, e.f, args.value.items, args.value.w, c);
      }
    } else {
      EvalKeeps(m, f, e.obj, w, c);
      var o := Eval(m, f, e.obj, w);
      if e.EField? { MessageForm(m, f, e, w); } else { MessageForm(m, f, e, w); }
      if o.Some? && e.EField? {
        SendKeeps(m, o.value.v, e.msg, [], o.value.w, c);
      } else if o.Some? {
        ArgsKeep(m, f, e.args, o.value.w, c);
        var args := EvalArgs(m, f, e.args, o.value.w);
        if args.Some? {
          SendKeeps(m, o.value.v, e.msg, args.value.items, args.value.w, c);
        }
      }
    }
  }

  lemma LeavesParts(c: Watched, e: Expr)
    requires Leaves(c, e)
    ensures e.ECall? ==> c.calls && AllLeave(c, e.args)
    ensures e.EField? || e.EMethod? ==> c.calls && Leaves(c, e.obj)
    ensures e.EMethod? ==> AllLeave(c, e.args)
  {
  }

  lemma {:induction false} ArrayKeeps(m: Sem, f: Env, e: Expr, w: World, c: Watched)
    requires e.EArray? && Leaves(c, e) && Watches(m, c)
    ensures KeptAfter(c, w, Eval(m, f, e, w))
    decreases e, 3
  {
    hide Eval, Effect, EvalArgs, Watches;
    ListForm(m, f, e, w);
    ArgsKeep(m, f, e.items, w, c);
  }

  lemma {:induction false} AssignedKeeps(m: Sem, f: Env, e: Expr, w: World, c: Watched)
    requires e.EAssign? && Leaves(c, e) && Watches(m, c)
    ensures KeptAfter(c, w, Eval(m, f, e, w))
    decreases e, 3
  {
    hide Eval, Effect, Assign, Watches, DoSend;
    if e.lhs.EField? {
      AssignForm(m, f, e, w);
      PairKeeps(m, f, e, e.lhs.obj, e.rhs, w, c);
      var o := Eval(m, f, e.lhs.obj, w);
      if o.Some? {
        var rv := Eval(m, f, e.rhs, o.value.w);
        if rv.Some? {
          SendKeeps(m, o.value.v, f.setter(e.lhs.msg), [Val(rv.value.v)], rv.value.w, c);
        }
      }
    } else {
      AssignForm(m, f, e, w);
      EvalKeeps(m, f, e.rhs, w, c);
      var rv := Eval(m, f, e.rhs, w);
      if rv.Some? {
        AssignKeeps(m, f, e.lhs, rv.value.v, rv.value.w, c);
      }
    }
  }

  lemma {:induction false} PairKeeps(m: Sem, f: Env, e: Expr, a: Expr, b: Expr, w: World, c: Watched)
    requires Leaves(c, a) && Leaves(c, b) && Watches(m, c) && a < e && b < e
    ensures var ra := Eval(m, f, a, w);
      ra.Some? ==>
        && Kept(c, w, ra.value.w)
        && (Eval(m, f, b, ra.value.w).Some? ==> Kept(c, w, Eval(m, f, b, ra.value.w).value.w))
    decreases e, 1
  {
    hide Eval, Leaves;
    EvalKeeps(m, f, a, w, c);
    if Eval(m, f, a, w).Some? {
      EvalKeeps(m, f, b, Eval(m, f, a, w).value.w, c);
    }
  }

  lemma {:induction false} LastKeeps(m: Sem, f: Env, es: Exprs, w: World, c: Watched)
    requires AllLeave(c, es) && Watches(m, c)
    ensures KeptAfter(c, w, EvalLast(m, f, es, w))
    decreases es, 0
  {
    hide Eval, Effect, Leaves;
    if es.More? {
      EvalKeeps(m, f, es.head, w, c);
      EffectKeeps(m, f, es.head, w, c);
      var w1 := Effect(m, f, es.head, w);
      if es.tail.More? && w1.Some? {
        LastKeeps(m, f, es.tail, w1.value, c);
      }
    }
  }

  lemma {:induction false} ArgsKeep(m: Sem, f: Env, es: Exprs, w: World, c: Watched)
    requires AllLeave(c, es) && Watches(m, c)
    ensures var r := EvalArgs(m, f, es, w);
      r.Some? ==> Kept(c, w, r.value.w) && RefTo(CellLoc(c.cell)) !in r.value.items
    decreases es, 0
  {
    hide EvalArg, Leaves, Watches;
    if es.More? {
      ArgKeeps(m, f, es.head, w, c);
      var p := EvalArg(m, f, es.head, w);
      if p.Some? {
        ArgsKeep(m, f, es.tail, p.value.w, c);
      }
    }
  }

  lemma {:induction false} ArgKeeps(m: Sem, f: Env, e: Expr, w: World, c: Watched)
    requires Leaves(c, e) && Watches(m, c)
    ensures var p := EvalArg(m, f, e, w);
      p.Some? ==> Kept(c, w, p.value.w) && p.value.item != RefTo(CellLoc(c.cell))
    decreases e, 5
  {
    hide Eval, Effect, EvalArg, Place, Watches;
    if e.EIif? {
      ChoiceForm(m, f, e, w);
      EvalKeeps(m, f, e.cond, w, c);
      var r := Eval(m, f, e.cond, w);
      if r.Some? {
        ArgKeeps(m, f, e.yes, r.value.w, c);
        ArgKeeps(m, f, e.no, r.value.w, c);
      }
    } else if e.ERef? {
      RefArg(m, f, e.target, w);
      PlaceKeeps(m, f, e.target, w, c);
    } else {
      ArgForm(m, f, e, w);
      EvalKeeps(m, f, e, w, c);
    }
  }

  lemma {:induction false} AliasedKeeps(m: Sem, f: Env, e: Expr, w: World, c: Watched)
    requires e.EAliased? && Leaves(c, e) && Watches(m, c)
    ensures KeptAfter(c, w, Eval(m, f, e, w))
    ensures KeptIn(c, w, Effect(m, f, e, w))
    decreases e, 3
  {
    hide Eval, Effect, Watches;
    MessageForm(m, f, e, w);
    EvalKeeps(m, f, e.alias, w, c);
    var ra := Eval(m, f, e.alias, w);
    if ra.Some? {
      var w1 := SelectArea(m, ra.value.v, ra.value.w);
      if w1.Some? {
        EvalKeeps(m, f, e.body, w1.value, c);
        EffectKeeps(m, f, e.body, w1.value, c);
      }
    }
  }

  lemma {:induction false} PlaceKeeps(m: Sem, f: Env, e: Expr, w: World, c: Watched)
    requires Leaves(c, e) && Watches(m, c)
    ensures var p := Place(m, f, e, w);
      p.Some? ==> Kept(c, w, p.value.w) && (p.value.loc.MsgLoc? ==> c.calls) && (Spares(c, e) ==> Away(c, p.value.loc))
    decreases e, 1
  {
    hide Eval, Base, Watches;
    match e
    case EIndex(a, i) =>
      BaseKeeps(m, f, a, w, c);
      var b := Base(m, f, a, w);
      if b.Some? {
        EvalKeeps(m, f, i, b.value.w, c);
        var ri := Eval(m, f, i, b.value.w);
        if ri.Some? && b.value.item.RefTo? {
          ReadKeeps(m, b.value.item.loc, ri.value.w, c);
        }
      }
    case EField(o, _) => EvalKeeps(m, f, o, w, c);
    case EMethod(o, _, _) => EvalKeeps(m, f, o, w, c);
    case ERef(t) => PlaceKeeps(m, f, t, w, c);
    case EIif(q, t, n) =>
      EvalKeeps(m, f, q, w, c);
      var r := Eval(m, f, q, w);
      if r.Some? {
        PlaceKeeps(m, f, t, r.value.w, c);
        PlaceKeeps(m, f, n, r.value.w, c);
      }
    case _ =>
  }

  lemma {:induction false} BaseKeeps(m: Sem, f: Env, e: Expr, w: World, c: Watched)
    requires Leaves(c, e) && Watches(m, c)
    ensures var b := Base(m, f, e, w);
      b.Some? ==> Kept(c, w, b.value.w) && (b.value.item.RefTo? ==> b.value.item.loc.MsgLoc? ==> c.calls)
    decreases e, 5
  {
    hide Eval, Place, Watches, Leaves;
    PlaceKeeps(m, f, e, w, c);
    EvalKeeps(m, f, e, w, c);
  }

  lemma WriteKeeps(m: Sem, x: Var, v: Value, w: World, c: Watched)
    requires (x.FieldVar? || CellOf(x) != c.cell) && Watches(m, c)
    ensures KeptIn(c, w, WriteVar(w, x, v))
  {
  }

  lemma {:induction false} AssignKeeps(m: Sem, f: Env, l: Expr, v: Value, w: World, c: Watched)
    requires Spares(c, l) && Leaves(c, l) && Watches(m, c)
    ensures KeptIn(c, w, Assign(m, f, l, v, w))
    decreases l, 5
  {
    hide Eval, Place, Store, DoSend, Watches;
    match l
    case EVar(x) => WriteKeeps(m, x, v, w, c);
    case EField(o, msg) =>
      EvalKeeps(m, f, o, w, c);
      var r := Eval(m, f, o, w);
      if r.Some? {
        SendKeeps(m, r.value.v, f.setter(msg), [Val(v)], r.value.w, c);
      }
    case EIndex(_, _) =>
      PlaceKeeps(m, f, l, w, c);
      var p := Place(m, f, l, w);
      if p.Some? {
        StoreKeeps(m, p.value.loc, v, p.value.w, c);
      }
    case EIif(q, t, n) =>
      EvalKeeps(m, f, q, w, c);
      var r := Eval(m, f, q, w);
      if r.Some? {
        AssignKeeps(m, f, t, v, r.value.w, c);
        AssignKeeps(m, f, n, v, r.value.w, c);
      }
    case _ =>
  }

  lemma {:induction false} FetchKeeps(m: Sem, f: Env, l: Expr, w: World, c: Watched)
    requires l.EField? && Leaves(c, l) && Watches(m, c)
    ensures c.calls && (Fetch(m, f, l, w).Some? ==> Kept(c, w, Fetch(m, f, l, w).value.w))
    decreases l, 0
  {
    hide Eval, DoSend, Watches;
    EvalKeeps(m, f, l.obj, w, c);
    var o := Eval(m, f, l.obj, w);
    if o.Some? {
      EvalKeeps(m, f, l.obj, o.value.w, c);
      var o2 := if f.harbour then o else Eval(m, f, l.obj, o.value.w);
      if o2.Some? {
        SendKeeps(m, o2.value.v, l.msg, [], o2.value.w, c);
      }
    }
  }

  lemma {:induction false} OpAssignKeeps(m: Sem, f: Env, e: Expr, w: World, c: Watched)
    requires e.EOpAssign? && Leaves(c, e) && Watches(m, c)
    ensures KeptAfter(c, w, EvalOpAssign(m, f, e, w))
    decreases e, 2
  {
    hide Eval, Place, Update, Assign, Fetch, DoSend, Watches;
    if UpdatesInPlace(f, e.lhs) {
      PlaceKeeps(m, f, e.lhs, w, c);
      var p := Place(m, f, e.lhs, w);
      if p.Some? {
        EvalKeeps(m, f, e.rhs, p.value.w, c);
        var r := Eval(m, f, e.rhs, p.value.w);
        if r.Some? {
          UpdateKeeps(m, e.aop, true, p.value.loc, r.value.v, r.value.w, c);
        }
      }
    } else if e.lhs.EField? {
      FetchKeeps(m, f, e.lhs, w, c);
      var p := Fetch(m, f, e.lhs, w);
      if p.Some? {
        EvalKeeps(m, f, e.rhs, p.value.w, c);
        var r := Eval(m, f, e.rhs, p.value.w);
        if r.Some? {
          var v := m.binary(Arith(e.aop), p.value.cur, r.value.v);
          if v.Some? {
            SendKeeps(m, p.value.obj, f.setter(e.lhs.msg), [Val(v.value)], r.value.w, c);
          }
        }
      }
    } else {
      PairKeeps(m, f, e, e.lhs, e.rhs, w, c);
      var cur := Eval(m, f, e.lhs, w);
      if cur.Some? {
        var r := Eval(m, f, e.rhs, cur.value.w);
        if r.Some? {
          var v := m.binary(Arith(e.aop), cur.value.v, r.value.v);
          if v.Some? {
            AssignKeeps(m, f, e.lhs, v.value, r.value.w, c);
          }
        }
      }
    }
  }

  lemma {:induction false} PreKeeps(m: Sem, f: Env, e: Expr, w: World, c: Watched)
    requires e.EStep? && Spares(c, e.lhs) && Leaves(c, e.lhs) && Watches(m, c)
    ensures KeptAfter(c, w, EvalPre(m, f, e, w))
    decreases e, 0
  {
    hide Eval, Place, StepLoc, Assign, Fetch, DoSend, Watches, Leaves;
    if StepsInPlace(f, e.lhs) {
      PlaceKeeps(m, f, e.lhs, w, c);
      var p := Place(m, f, e.lhs, w);
      if p.Some? {
        UpdateKeeps(m, Plus, e.inc, p.value.loc, Nil, p.value.w, c);
      }
    } else if e.lhs.EField? {
      FetchKeeps(m, f, e.lhs, w, c);
      var p := Fetch(m, f, e.lhs, w);
      if p.Some? {
        var v := m.unary(StepOp(e.inc), p.value.cur);
        if v.Some? {
          SendKeeps(m, p.value.obj, f.setter(e.lhs.msg), [Val(v.value)], p.value.w, c);
        }
      }
    } else {
      EvalKeeps(m, f, e.lhs, w, c);
      var cur := Eval(m, f, e.lhs, w);
      if cur.Some? {
        var v := m.unary(StepOp(e.inc), cur.value.v);
        if v.Some? {
          AssignKeeps(m, f, e.lhs, v.value, cur.value.w, c);
        }
      }
    }
  }

  lemma {:induction false} PostKeeps(m: Sem, f: Env, e: Expr, w: World, c: Watched)
    requires e.EStep? && Spares(c, e.lhs) && Leaves(c, e.lhs) && Watches(m, c)
    ensures KeptAfter(c, w, EvalPost(m, f, e, w))
    decreases e, 1
  {
    hide Eval, Place, StepLoc, Assign, Fetch, DoSend, Watches, Leaves, EvalPre, Deref;
    PreKeeps(m, f, e, w, c);
    EvalKeeps(m, f, e.lhs, w, c);
    var cur := Eval(m, f, e.lhs, w);
    if StepsInPlace(f, e.lhs) {
      PlaceKeeps(m, f, e.lhs, w, c);
      var p := Place(m, f, e.lhs, w);
      if p.Some? {
        ReadKeeps(m, p.value.loc, p.value.w, c);
        var r := Deref(m, p.value.loc, p.value.w);
        if r.Some? {
          UpdateKeeps(m, Plus, e.inc, p.value.loc, Nil, r.value.w, c);
        }
      }
    } else if e.lhs.EField? && f.harbour {
      PostIsPut(m, f, e, w);
    } else if e.lhs.EField? && cur.Some? {
      PreKeeps(m, f, e, cur.value.w, c);
    } else if cur.Some? {
      var v := m.unary(StepOp(e.inc), cur.value.v);
      if v.Some? {
        AssignKeeps(m, f, e.lhs, v.value, cur.value.w, c);
      }
    }
  }

  /** The stack form for fields sends the same messages whether or not the old value is kept. */
  lemma PostIsPut(m: Sem, f: Env, e: Expr, w: World)
    requires e.EStep? && e.lhs.EField? && f.harbour && !StepsInPlace(f, e.lhs)
    ensures EvalPost(m, f, e, w).Some? ==>
      EvalPre(m, f, e, w).Some? && EvalPre(m, f, e, w).value.w == EvalPost(m, f, e, w).value.w
  {
    hide Eval, Fetch, DoSend;
  }

  lemma {:induction false} StepKeeps(m: Sem, f: Env, e: Expr, w: World, c: Watched)
    requires e.EStep? && Leaves(c, e) && Watches(m, c)
    ensures KeptAfter(c, w, EvalPre(m, f, e, w))
    ensures KeptAfter(c, w, EvalPost(m, f, e, w))
    decreases e, 2
  {
    hide EvalPre, EvalPost, Watches;
    PreKeeps(m, f, e, w, c);
    PostKeeps(m, f, e, w, c);
  }

  lemma {:induction false} EffectKeeps(m: Sem, f: Env, e: Expr, w: World, c: Watched)
    requires Leaves(c, e) && Watches(m, c)
    ensures KeptIn(c, w, Effect(m, f, e, w))
    decreases e, 6
  {
    hide Eval, Effect, EvalPre, EffectAll, Kept, Watches;
    EvalKeeps(m, f, e, w, c);
    match e
    case EIif(q, t, n) =>
      ChoiceForm(m, f, e, w);
      ShortKeeps(m, f, e, q, t, w, c);
      ShortKeeps(m, f, e, q, n, w, c);
    case EList(es) =>
      ListForm(m, f, e, w);
      EffectsKeep(m, f, es, w, c);
    case EArray(es) =>
      ListForm(m, f, e, w);
      EffectsKeep(m, f, es, w, c);
    case EIndex(a, i) =>
      OperatorForm(m, f, e, w);
      EffectPairKeeps(m, f, e, a, i, w, c);
    case EAliased(_, _) => AliasedKeeps(m, f, e, w, c);
    case EStep(_, _, _) =>
      AssignForm(m, f, e, w);
      StepKeeps(m, f, e, w, c);
    case EAnd(l, r) =>
      ShortForm(m, f, e, w);
      ShortKeeps(m, f, e, l, r, w, c);
    case EOr(l, r) =>
      ShortForm(m, f, e, w);
      ShortKeeps(m, f, e, l, r, w, c);
    case ENot(l) =>
      OperatorForm(m, f, e, w);
      EffectKeeps(m, f, l, w, c);
    case ENegate(l) =>
      OperatorForm(m, f, e, w);
      EffectKeeps(m, f, l, w, c);
    case EBin(_, l, r) =>
      OperatorForm(m, f, e, w);
      EffectPairKeeps(m, f, e, l, r, w, c);
    case _ => PlainEffect(m, f, e, w);
  }

  lemma {:induction false} ShortKeeps(m: Sem, f: Env, e: Expr, l: Expr, r: Expr, w: World, c: Watched)
    requires Leaves(c, l) && Leaves(c, r) && Watches(m, c) && l < e && r < e
    ensures var rl := Eval(m, f, l, w);
      rl.Some? ==>
        && Kept(c, w, rl.value.w)
        && (Effect(m, f, r, rl.value.w).Some? ==> Kept(c, w, Effect(m, f, r, rl.value.w).value))
    decreases e, 5
  {
    hide Eval, Effect, Leaves;
    EvalKeeps(m, f, l, w, c);
    if Eval(m, f, l, w).Some? {
      EffectKeeps(m, f, r, Eval(m, f, l, w).value.w, c);
    }
  }

  lemma {:induction false} EffectPairKeeps(m: Sem, f: Env, e: Expr, a: Expr, b: Expr, w: World, c: Watched)
    requires Leaves(c, a) && Leaves(c, b) && Watches(m, c) && a < e && b < e
    ensures var w1 := Effect(m, f, a, w);
      w1.Some? ==>
        Effect(m, f, b, w1.value).Some? ==> Kept(c, w, Effect(m, f, b, w1.value).value)
    decreases e, 5
  {
    hide Effect, Leaves;
    EffectKeeps(m, f, a, w, c);
    if Effect(m, f, a, w).Some? {
      EffectKeeps(m, f, b, Effect(m, f, a, w).value, c);
    }
  }

  lemma {:induction false} EffectsKeep(m: Sem, f: Env, es: Exprs, w: World, c: Watched)
    requires AllLeave(c, es) && Watches(m, c)
    ensures KeptIn(c, w, EffectAll(m, f, es, w))
    decreases es, 0
  {
    hide Effect, Leaves;
    if es.More? {
      EffectKeeps(m, f, es.head, w, c);
      var w1 := Effect(m, f, es.head, w);
      if w1.Some? {
        EffectsKeep(m, f, es.tail, w1.value, c);
      }
    }
  }

  // ----- v := v op e -----

  /** The variable holds the same after `e` as before. */
  predicate Unchanged(m: Sem, f: Env, e: Expr, c: Cell, w: World)
  {
    var r := Eval(m, f, e, w);
    r.Some? ==> Get(r.value.w, c) == Get(w, c)
  }

  /** Where the compiler makes the change: a variable that is neither a field nor undeclared. */
  predicate Direct(f: Env, x: Var)
  {
    f.harbour && HasCell(x) && !x.Undeclared?
  }

  function Assignment(op: ArithOp, x: Var, e: Expr): Expr
  {
    EAssign(EVar(x), EBin(Arith(op), EVar(x), e))
  }

  function Compound(op: ArithOp, x: Var, e: Expr): Expr
  {
    EOpAssign(op, EVar(x), e)
  }

  lemma VarValue(m: Sem, f: Env, x: Var, w: World)
    ensures Eval(m, f, EVar(x), w) == (var v :- ReadVar(w, x); Some(Result(v, w)))
  {
    hide ReadVar;
  }

  lemma AssignmentValue(m: Sem, f: Env, op: ArithOp, x: Var, e: Expr, w: World)
    ensures Eval(m, f, Assignment(op, x, e), w) == (
      var cur :- Eval(m, f, EVar(x), w);
      var r :- Eval(m, f, e, cur.w);
      var v :- m.binary(Arith(op), cur.v, r.v);
      var w' :- WriteVar(r.w, x, v);
      Some(Result(v, w')))
  {
    hide Eval, ReadVar, WriteVar;
    OperatorForm(m, f, EBin(Arith(op), EVar(x), e), w);
    AssignForm(m, f, Assignment(op, x, e), w);
    assert forall w', v :: Assign(m, f, EVar(x), v, w') == WriteVar(w', x, v);
  }

  lemma CompoundValue(m: Sem, f: Env, op: ArithOp, x: Var, e: Expr, w: World)
    requires Direct(f, x)
    ensures Eval(m, f, Compound(op, x, e), w) ==
      if CellOf(x) !in w.cells then None else (var r :- Eval(m, f, e, w); Update(m, op, CellLoc(CellOf(x)), r.v, r.w))
  {
    hide Eval, Place, Update, CellOf;
    VarPlace(m, f, x, w);
    UpdateIsEval(m, f, Compound(op, x, e), w);
  }

  lemma VarPlace(m: Sem, f: Env, x: Var, w: World)
    requires HasCell(x)
    ensures Place(m, f, EVar(x), w) == if CellOf(x) in w.cells then Some(Placed(CellLoc(CellOf(x)), w)) else None
  {
    hide CellOf;
  }

  lemma UpdateMeansAssign(m: Sem, f: Env, op: ArithOp, x: Var, e: Expr, w: World)
    requires Direct(f, x) && Unchanged(m, f, e, CellOf(x), w)
    ensures Eval(m, f, Compound(op, x, e), w) == Eval(m, f, Assignment(op, x, e), w)
  {
    hide Eval;
    VarValue(m, f, x, w);
    AssignmentValue(m, f, op, x, e, w);
    CompoundValue(m, f, op, x, e, w);
  }

  /** Rewriting `v := v op e` to `v op= e` keeps value and store for every expression that does not
      assign the variable; calls and messages may occur if they are known to spare it. */
  lemma RewriteKeepsMeaning(m: Sem, f: Env, op: ArithOp, x: Var, e: Expr, calls: bool, w: World)
    requires Direct(f, x) && Leaves(Watched(CellOf(x), calls), e) && (calls ==> Spared(m, CellOf(x)))
    ensures Eval(m, f, Compound(op, x, e), w) == Eval(m, f, Assignment(op, x, e), w)
    ensures Effect(m, f, Compound(op, x, e), w) == Effect(m, f, Assignment(op, x, e), w)
  {
    hide Leaves, Spared;
    EvalKeeps(m, f, e, w, Watched(CellOf(x), calls));
    UpdateMeansAssign(m, f, op, x, e, w);
    AssignmentEffect(m, f, op, x, e, w);
  }

  lemma AssignmentEffect(m: Sem, f: Env, op: ArithOp, x: Var, e: Expr, w: World)
    ensures Effect(m, f, Compound(op, x, e), w) == Discard(Eval(m, f, Compound(op, x, e), w))
    ensures Effect(m, f, Assignment(op, x, e), w) == Discard(Eval(m, f, Assignment(op, x, e), w))
  {
  }

  /** The exact condition: when the variable has a value and `e` can be evaluated, the rewriting is
      right if and only if the operator makes no difference between the value of the variable before
      `e` and after it; otherwise both forms fail. */
  lemma RewriteExactly(m: Sem, f: Env, op: ArithOp, x: Var, e: Expr, w: World)
    requires Direct(f, x)
    ensures var was, r := Get(w, CellOf(x)), Eval(m, f, e, w);
      if was.None? || r.None? then Eval(m, f, Compound(op, x, e), w) == Eval(m, f, Assignment(op, x, e), w) == None
      else
        Eval(m, f, Compound(op, x, e), w) == Eval(m, f, Assignment(op, x, e), w) <==>
          (var now :- Get(r.value.w, CellOf(x)); m.binary(Arith(op), now, r.value.v))
            == m.binary(Arith(op), was.value, r.value.v)
  {
    hide Eval, CellOf;
    VarValue(m, f, x, w);
    DirectCell(x, w);
    AssignmentValue(m, f, op, x, e, w);
    CompoundValue(m, f, op, x, e, w);
    var r := Eval(m, f, e, w);
    if r.Some? {
      DirectCell(x, r.value.w);
    }
  }

  lemma DirectCell(x: Var, w: World)
    requires HasCell(x) && !x.Undeclared?
    ensures ReadVar(w, x) == Get(w, CellOf(x))
    ensures forall v :: WriteVar(w, x, v) == Some(w.(cells := w.cells[CellOf(x) := v]))
  {
  }

  /** For sums and differences of integers, overflow included, that is: if and only if `e` leaves the
      variable as it found it. */
  lemma SumsExactly(m0: Sem, f: Env, plus: bool, x: Var, e: Expr, a: S64, k: S64, b: S64, w: World)
    requires Direct(f, x) && Get(w, CellOf(x)) == Some(Num(a))
    requires var r := Eval(Arithmetic.WithArithmetic(m0), f, e, w);
      r.Some? && r.value.v == Num(k) && Get(r.value.w, CellOf(x)) == Some(Num(b))
    ensures var m, op := Arithmetic.WithArithmetic(m0), if plus then Plus else Minus;
      Eval(m, f, Compound(op, x, e), w) == Eval(m, f, Assignment(op, x, e), w) <==> a == b
  {
    hide Eval, CellOf;
    RewriteExactly(Arithmetic.WithArithmetic(m0), f, if plus then Plus else Minus, x, e, w);
    SumsDiffer(a, b, k);
  }

  lemma SumsDiffer(a: S64, b: S64, k: S64)
    ensures Arithmetic.Plus(Num(a), Num(k)) == Arithmetic.Plus(Num(b), Num(k)) <==> a == b
    ensures Arithmetic.Minus(Num(a), Num(k)) == Arithmetic.Minus(Num(b), Num(k)) <==> a == b
  {
    hide Arithmetic.AddInts, Arithmetic.SubtractInts;
    Arithmetic.OverflowDetected(a, k);
    Arithmetic.OverflowDetected(b, k);
  }

  /** `x := x + ( x := 5 )` with x = 1 gives 6; rewritten it gives 10. */
  lemma RewriteCounterexample(m0: Sem, f: Env, w: World)
    requires f.harbour && Get(w, LocalCell(1)) == Some(Num(1))
    ensures var m, e := Arithmetic.WithArithmetic(m0), EAssign(EVar(Local(1)), ENumber(5));
      Eval(m, f, Compound(Plus, Local(1), e), w) != Eval(m, f, Assignment(Plus, Local(1), e), w)
  {
    hide Arithmetic.WithArithmetic;
    var m, e := Arithmetic.WithArithmetic(m0), EAssign(EVar(Local(1)), ENumber(5));
    assert Eval(m, f, ENumber(5), w) == Some(Result(Num(5), w));
    AssignForm(m, f, e, w);
    SumsExactly(m0, f, true, Local(1), e, 1, 5, 5, w);
  }

  // ----- all encodings of one operation -----

  /** Old value first, then the operand, the operator, a copy, and a store. */
  function GenericUpdate(f: Env, op: ArithOp, x: Var, e: Expr, value: bool): Asm
  {
    var store := if value then Cat(Op0(ODuplicate), PopVar(f, x)) else PopVar(f, x);
    Cat(PushVar(f, x), Cat(Push(f, e), Cat(Op0(OBin(Arith(op))), store)))
  }

  /** A reference, the operand, and one instruction. */
  function ByReference(f: Env, op: ArithOp, x: Var, e: Expr, value: bool): Asm
  {
    Cat(RefVar(x), Cat(Push(f, e), Op0(if value then OOpEq(op) else OOpEqPop(op))))
  }

  /** The reference forms read the variable after the operand and the generic form before it; when
      the operand keeps the variable they agree, also with the instruction for integer literals. */
  lemma UpdatesAgree(m: Sem, f: Env, op: ArithOp, x: Var, e: Expr, value: bool, s: State)
    requires Lawful(m) && Direct(f, x) && IsValue(f, e) && Unchanged(m, f, e, CellOf(x), s.w)
    ensures Den(m, GenericUpdate(f, op, x, e, value), s) == Den(m, ByReference(f, op, x, e, value), s)
    ensures AddsInt(f, Compound(op, x, e)) ==>
      Den(m, ByReference(f, op, x, e, value), s) ==
        Den(m, if value then Cat(AddInt(f, Compound(op, x, e)), PushVar(f, x)) else AddInt(f, Compound(op, x, e)), s)
  {
    hide Exec, Lawful, Den, Unchanged;
    var d := Compound(op, x, e);
    GenericMeans(m, f, op, x, e, value, s);
    ReferenceMeans(m, f, op, x, e, value, s);
    UpdateMeansAssign(m, f, op, x, e, s.w);
    if AddsInt(f, d) {
      LocalAddOk(m, f, d, s);
      LiteralForms(f, op, x, e);
      UpdateIsEval(m, f, d, s.w);
    }
  }

  function Outcomes(s: State, r: Outcome, value: bool): Option<State>
  {
    if value then Ret(s.stack, r) else NoResult(s.stack, r)
  }

  lemma LiteralForms(f: Env, op: ArithOp, x: Var, e: Expr)
    requires AddsInt(f, Compound(op, x, e))
    ensures PushOpAssign(f, Compound(op, x, e)) == Cat(AddInt(f, Compound(op, x, e)), PushVar(f, x))
    ensures EffOpAssign(f, Compound(op, x, e)) == AddInt(f, Compound(op, x, e))
  {
  }

  lemma GenericMeans(m: Sem, f: Env, op: ArithOp, x: Var, e: Expr, value: bool, s: State)
    requires Lawful(m) && HasCell(x) && IsValue(f, e)
    ensures Den(m, GenericUpdate(f, op, x, e, value), s) == Outcomes(s, Eval(m, f, Assignment(op, x, e), s.w), value)
  {
    hide Exec, Lawful, IsValue, ReadVar, WriteVar;
    var store := if value then Cat(Op0(ODuplicate), PopVar(f, x)) else PopVar(f, x);
    var d := Compound(op, x, e);
    VariableForms(f, x);
    CompoundIsValue(f, op, x, e);
    GenericOpAssignOk(m, f, d, store, s);
    var cur := Eval(m, f, EVar(x), s.w);
    if cur.Some? {
      var r := Eval(m, f, e, cur.value.w);
      if r.Some? {
        var v := m.binary(Arith(op), cur.value.v, r.value.v);
        if v.Some? {
          StoreCopyOk(m, f, EVar(x), v.value, State(s.stack, r.value.w));
          PopVarOk(m, f, x, v.value, s.stack, r.value.w);
        }
      }
    }
    AssignmentValue(m, f, op, x, e, s.w);
  }

  lemma CompoundIsValue(f: Env, op: ArithOp, x: Var, e: Expr)
    requires IsValue(f, e)
    ensures IsValue(f, Compound(op, x, e))
  {
  }

  lemma VariableForms(f: Env, x: Var)
    ensures Push(f, EVar(x)) == PushVar(f, x) && Pop(f, EVar(x)) == PopVar(f, x) && Ref(f, EVar(x)) == RefVar(x)
  {
  }

  lemma ReferenceMeans(m: Sem, f: Env, op: ArithOp, x: Var, e: Expr, value: bool, s: State)
    requires Lawful(m) && Direct(f, x) && IsValue(f, e)
    ensures Den(m, ByReference(f, op, x, e, value), s) == Outcomes(s, Eval(m, f, Compound(op, x, e), s.w), value)
  {
    hide Exec, Lawful, IsValue, Update;
    var d := Compound(op, x, e);
    VariableForms(f, x);
    CompoundIsValue(f, op, x, e);
    UpdateOk(m, f, d, Op0(if value then OOpEq(op) else OOpEqPop(op)), s);
    UpdateIsEval(m, f, d, s.w);
    var p := Place(m, f, EVar(x), s.w);
    if p.Some? {
      var r := Eval(m, f, e, p.value.w);
      if r.Some? {
        OpEqOk(m, op, p.value.loc, r.value.v, State(s.stack, r.value.w));
      }
    }
  }

  // ----- ++ and -- -----

  function StepCode(f: Env, inc: bool, x: Var, form: StepKind): Asm
    requires form.InLocal? ==> x.Local?
  {
    var step := Op0(OUn(StepOp(inc)));
    match form
    case Generic(Before) => Cat(PushVar(f, x), Cat(step, Cat(Op0(ODuplicate), PopVar(f, x))))
    case Generic(After) => Cat(PushVar(f, x), Cat(Op0(ODuplicate), Cat(step, PopVar(f, x))))
    case Generic(Unused) => Cat(PushVar(f, x), Cat(step, PopVar(f, x)))
    case InPlace(Before) => Cat(RefVar(x), Op0(OStepEq(inc)))
    case InPlace(After) => Cat(RefVar(x), Cat(Op0(ODuplUnref), Op0(OStepEqPop(inc))))
    case InPlace(Unused) => Cat(RefVar(x), Op0(OStepEqPop(inc)))
    case InLocal(Before) =>
      if inc then Op1(OLocalIncPush, x.lpos) else Cat(Op1(OLocalStep(false), x.lpos), PushVar(f, x))
    case InLocal(After) => Cat(PushVar(f, x), Op1(OLocalStep(inc), x.lpos))
    case InLocal(Unused) => Op1(OLocalStep(inc), x.lpos)
  }

  /** Whether the value of the operand before or after the step is wanted. */
  datatype Wanted = Before | After | Unused
  datatype StepKind = Generic(k: Wanted) | InPlace(k: Wanted) | InLocal(k: Wanted)

  /** What each of them does: one read, one step, one write. */
  function Stepped(m: Sem, inc: bool, c: Cell, k: Wanted, s: State): Option<State>
  {
    var was :- Get(s.w, c);
    var v :- m.unary(StepOp(inc), was);
    var w := s.w.(cells := s.w.cells[c := v]);
    Some(State(if k.Unused? then s.stack else PushVal(if k.Before? then v else was, s.stack), w))
  }

  /** All encodings of `++x`, `x++` and their statement forms do the same. */
  lemma StepsAgree(m: Sem, f: Env, inc: bool, x: Var, form: StepKind, s: State)
    requires HasCell(x) && !x.Undeclared? && (form.InLocal? ==> x.Local?)
    ensures Den(m, StepCode(f, inc, x, form), s) == Stepped(m, inc, CellOf(x), form.k, s)
  {
    hide Exec, StepCode;
    match form
    case Generic(_) => GenericSteps(m, f, inc, x, form, s);
    case InPlace(_) => InPlaceSteps(m, f, inc, x, form, s);
    case InLocal(_) => InLocalSteps(m, f, inc, x, form, s);
  }

  lemma GenericSteps(m: Sem, f: Env, inc: bool, x: Var, form: StepKind, s: State)
    requires HasCell(x) && !x.Undeclared? && form.Generic?
    ensures Den(m, StepCode(f, inc, x, form), s) == Stepped(m, inc, CellOf(x), form.k, s)
  {
    hide Exec, PushVar, PopVar;
    PushVarOk(m, f, x, s);
    var was := ReadVar(s.w, x);
    if was.Some? {
      var v, step := m.unary(StepOp(inc), was.value), Op0(OUn(StepOp(inc)));
      var s1 := State(PushVal(was.value, s.stack), s.w);
      DuplicateOk(m, was.value, s);
      UnOpOk(m, StepOp(inc), was.value, s);
      UnOpOk(m, StepOp(inc), was.value, s1);
      Chain(m, step, Cat(Op0(ODuplicate), PopVar(f, x)), s1);
      Chain(m, Op0(ODuplicate), Cat(step, PopVar(f, x)), s1);
      Chain(m, step, PopVar(f, x), s1);
      Chain(m, step, PopVar(f, x), State(PushVal(was.value, s1.stack), s.w));
      if v.Some? {
        Chain(m, Op0(ODuplicate), PopVar(f, x), State(PushVal(v.value, s.stack), s.w));
        DuplicateOk(m, v.value, s);
        PopVarOk(m, f, x, v.value, PushVal(v.value, s.stack), s.w);
        PopVarOk(m, f, x, v.value, s1.stack, s.w);
        PopVarOk(m, f, x, v.value, s.stack, s.w);
      }
    }
  }

  lemma InPlaceSteps(m: Sem, f: Env, inc: bool, x: Var, form: StepKind, s: State)
    requires HasCell(x) && form.InPlace?
    ensures Den(m, StepCode(f, inc, x, form), s) == Stepped(m, inc, CellOf(x), form.k, s)
  {
    hide Exec, RefVar, CellOf;
    RefVarExec(m, x, s);
    var loc := CellLoc(CellOf(x));
    StepEqOk(m, inc, loc, s);
    StepAfterReadOk(m, inc, loc, s);
  }

  lemma InLocalSteps(m: Sem, f: Env, inc: bool, x: Var, form: StepKind, s: State)
    requires x.Local? && form.InLocal?
    ensures Den(m, StepCode(f, inc, x, form), s) == Stepped(m, inc, CellOf(x), form.k, s)
  {
    hide Exec, PushVar;
    LocalStepOk(m, inc, x.lpos, s);
    PushVarOk(m, f, x, s);
    var r := StepLoc(m, inc, CellLoc(LocalCell(x.lpos)), s.w);
    if r.Some? {
      PushVarOk(m, f, x, State(s.stack, r.value.w));
    }
    if LocalCell(x.lpos) in s.w.cells {
      LocalStepOk(m, inc, x.lpos, State(PushVal(s.w.cells[LocalCell(x.lpos)], s.stack), s.w));
    }
  }

  // ----- elements -----

  /** `a[ i++ ]++`: array and index are evaluated once, and one and the same element is read and
      written, also for nested arrays; nothing else changes after the element is found. */
  lemma ElementSteppedOnce(m: Sem, f: Env, pre: bool, inc: bool, a: Expr, i: Expr, w: World)
    requires f.harbour && Eval(m, f, EStep(pre, inc, EIndex(a, i)), w).Some?
    ensures var p := Place(m, f, EIndex(a, i), w);
      && p.Some? && p.value.loc.ElemLoc? && ValidElem(p.value.w, p.value.loc.arr, p.value.loc.index)
      && var row, k, r := p.value.w.heap[p.value.loc.arr], p.value.loc.index - 1, Eval(m, f, EStep(pre, inc,
        EIndex(a, i)), w).value;
         && m.unary(StepOp(inc), row[k]).Some?
         && var v := m.unary(StepOp(inc), row[k]).value;
            && r.v == (if pre then v else row[k])
            && r.w == p.value.w.(heap := p.value.w.heap[p.value.loc.arr := row[k := v]])
  {
    hide Place;
    PlaceIsElement(m, f, a, i, w);
  }

  lemma PlaceIsElement(m: Sem, f: Env, a: Expr, i: Expr, w: World)
    ensures var p := Place(m, f, EIndex(a, i), w);
      p.Some? ==> p.value.loc.ElemLoc? && ValidElem(p.value.w, p.value.loc.arr, p.value.loc.index)
  {
    hide Eval, Base;
  }

  /** `a[ i ] op= e`: the element is found before `e` is evaluated and read after it; whatever `e`
      did in between, what is read and what is written is that element. */
  lemma ElementUpdatedOnce(m: Sem, f: Env, op: ArithOp, a: Expr, i: Expr, e: Expr, w: World)
    requires f.harbour && Eval(m, f, EOpAssign(op, EIndex(a, i), e), w).Some?
    ensures var p := Place(m, f, EIndex(a, i), w);
      && p.Some? && p.value.loc.ElemLoc?
      && var r := Eval(m, f, e, p.value.w);
         && r.Some? && ValidElem(r.value.w, p.value.loc.arr, p.value.loc.index)
         && var w1, loc := r.value.w, p.value.loc;
            var v := m.binary(Arith(op), w1.heap[loc.arr][loc.index - 1], r.value.v);
            && v.Some?
            && Eval(m, f, EOpAssign(op, EIndex(a, i), e), w) ==
                 Some(Result(v.value, w1.(heap := w1.heap[loc.arr := w1.heap[loc.arr][loc.index - 1 := v.value]])))
  {
    hide Place;
    PlaceIsElement(m, f, a, i, w);
  }

  // ----- the 16-bit amount -----

  /** The operand of the instruction for literals decodes to the amount that is meant; the one
      subtraction it is not used for is the one whose amount would change its sign. */
  lemma AmountDecodes(f: Env, e: Expr)
    requires e.EOpAssign? && AddsInt(f, e)
    ensures SignedLE(LE(Amount(f, e), 2)) == if e.aop.Minus? then -(e.rhs.n as int) else e.rhs.n
    ensures SignedLE(LE(0x8000, 2)) == -0x8000
  {
    assert Pow256(2) == 0x10000;
    SignedRoundTrip(Amount(f, e), 2);
    FromLEOfLE(0x8000, 2);
  }
}
