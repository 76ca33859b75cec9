/** Code that keeps only the effect of an expression, against code that computes the value and drops
    it; work areas; the SETGET form; and the stack exchanges of the field forms. */
module Effects {
  import opened Wrappers
  import opened Runtime
  import opened Pcode
  import opened Asm
  import opened Expr
  import opened Compile
  import opened Correct
  import opened Forms
  import M = Mirror

  /** No literal array and no `o:x++` read twice stands where the value is dropped. */
  predicate Steady(f: Env, e: Expr)
  {
    match e
    case EIif(_, t, n) => Steady(f, t) && Steady(f, n)
    case EList(es) => SteadyLast(f, es)
    case EArray(_) => false
    case EIndex(a, i) => Steady(f, a) && Steady(f, i)
    case EAliased(_, b) => Steady(f, b)
    case EStep(pre, _, l) => pre || !l.EField? || (f.harbour && !f.extopt)
    case EAnd(_, r) => f.shortcuts ==> Steady(f, r)
    case EOr(_, r) => f.shortcuts ==> Steady(f, r)
    case ENot(l) => f.harbour ==> Steady(f, l)
    case ENegate(l) => f.harbour ==> Steady(f, l)
    case EBin(_, l, r) => f.harbour ==> Steady(f, l) && Steady(f, r)
    case _ => true
  }

  predicate SteadyLast(f: Env, es: Exprs)
  {
    es.More? && if es.tail.NoMore? then Steady(f, es.head) else SteadyLast(f, es.tail)
  }

  /** Whenever the value can be computed, running for effect only gives the same variables, heap,
      work area and trace of calls and sends, although operators, element accesses and second reads
      are left out. */
  lemma {:induction false} EffectIsEval(m: Sem, f: Env, e: Expr, w: World)
    requires Steady(f, e) && Eval(m, f, e, w).Some?
    ensures Effect(m, f, e, w) == Some(Eval(m, f, e, w).value.w)
    decreases e, 1
  {
    hide Eval, Effect, EvalLast, EffectAll, EvalPre, EvalPost;
    match e
    case EIif(c, t, n) =>
      ChoiceForm(m, f, e, w);
      var r := Eval(m, f, c, w).value;
      EffectIsEval(m, f, if r.v.b then t else n, r.w);
    case EList(es) =>
      ListForm(m, f, e, w);
      EffectsIsEval(m, f, es, w);
    case EIndex(a, i) =>
      OperatorForm(m, f, e, w);
      EffectIsEval(m, f, a, w);
      EffectIsEval(m, f, i, Eval(m, f, a, w).value.w);
    case EAliased(a, b) =>
      MessageForm(m, f, e, w);
      var ra := Eval(m, f, a, w).value;
      EffectIsEval(m, f, b, SelectArea(m, ra.v, ra.w).value);
    case EStep(pre, _, _) =>
      AssignForm(m, f, e, w);
      if !pre { PostIsPre(m, f, e, w); }
    case EAnd(l, r) =>
      ShortForm(m, f, e, w);
      var rl := Eval(m, f, l, w).value;
      if f.shortcuts && rl.v.b { EffectIsEval(m, f, r, rl.w); }
    case EOr(l, r) =>
      ShortForm(m, f, e, w);
      var rl := Eval(m, f, l, w).value;
      if f.shortcuts && !rl.v.b { EffectIsEval(m, f, r, rl.w); }
    case ENot(l) =>
      OperatorForm(m, f, e, w);
      if f.harbour { EffectIsEval(m, f, l, w); }
    case ENegate(l) =>
      OperatorForm(m, f, e, w);
      if f.harbour { EffectIsEval(m, f, l, w); }
    case EBin(_, l, r) =>
      OperatorForm(m, f, e, w);
      if f.harbour {
        EffectIsEval(m, f, l, w);
        EffectIsEval(m, f, r, Eval(m, f, l, w).value.w);
      }
    case _ => PlainEffect(m, f, e, w);
  }

  lemma {:induction false} EffectsIsEval(m: Sem, f: Env, es: Exprs, w: World)
    requires SteadyLast(f, es) && EvalLast(m, f, es, w).Some?
    ensures EffectAll(m, f, es, w) == Some(EvalLast(m, f, es, w).value.w)
    decreases es, 0
  {
    hide Effect, Eval, Steady;
    if es.tail.NoMore? {
      EffectIsEval(m, f, es.head, w);
    } else {
      EffectsIsEval(m, f, es.tail, Effect(m, f, es.head, w).value);
    }
  }

  /** Reading a variable or an element changes nothing, so the old value may as well not be kept. */
  lemma PostIsPre(m: Sem, f: Env, e: Expr, w: World)
    requires e.EStep? && Steady(f, e) && !e.pre && EvalPost(m, f, e, w).Some?
    ensures EvalPre(m, f, e, w).Some? && EvalPre(m, f, e, w).value.w == EvalPost(m, f, e, w).value.w
  {
    hide Eval, Assign;
  }

  /** The two instruction sequences end in the same machine state. */
  lemma DroppingIsEffect(m: Sem, f: Env, e: Expr, s: State)
    requires Lawful(m) && IsValue(f, e) && Steady(f, e) && Eval(m, f, e, s.w).Some?
    ensures Den(m, Eff(f, e), s) == Den(m, Cat(Push(f, e), Op0(OPop)), s) == Some(State(s.stack, Eval(m, f, e,
        s.w).value.w))
  {
    hide Exec, Push, Eff, Eval, Effect, Steady, IsValue, Lawful;
    EffOk(m, f, e, s);
    EffectIsEval(m, f, e, s.w);
    DroppedOk(m, f, e, s);
  }

  // ----- expressions that change nothing -----

  /** Nothing in it can change the world. */
  predicate IsPure(e: Expr)
  {
    match e
    case ENil => true
    case ELogical(_) => true
    case ENumber(_) => true
    case EVar(_) => true
    case EIif(c, t, n) => IsPure(c) && IsPure(t) && IsPure(n)
    case EIndex(a, i) => IsPure(a) && IsPure(i)
    case EAnd(l, r) => IsPure(l) && IsPure(r)
    case EOr(l, r) => IsPure(l) && IsPure(r)
    case ENot(l) => IsPure(l)
    case ENegate(l) => IsPure(l)
    case EBin(_, l, r) => IsPure(l) && IsPure(r)
    case _ => false
  }

  lemma {:induction false} PureKeepsWorld(m: Sem, f: Env, e: Expr, w: World)
    requires IsPure(e)
    ensures Eval(m, f, e, w).Some? ==> Eval(m, f, e, w).value.w == w
    decreases e, 1
  {
    hide Eval, Effect;
    match e
    case EIif(c, t, n) =>
      ChoiceForm(m, f, e, w);
      PureKeepsWorld(m, f, c, w);
      PureKeepsWorld(m, f, t, w);
      PureKeepsWorld(m, f, n, w);
    case EIndex(a, i) =>
      OperatorForm(m, f, e, w);
      PureKeepsWorld(m, f, a, w);
      PureKeepsWorld(m, f, i, w);
    case EAnd(l, r) =>
      ShortForm(m, f, e, w);
      PureKeepsWorld(m, f, l, w);
      PureKeepsWorld(m, f, r, w);
    case EOr(l, r) =>
      ShortForm(m, f, e, w);
      PureKeepsWorld(m, f, l, w);
      PureKeepsWorld(m, f, r, w);
    case ENot(l) =>
      OperatorForm(m, f, e, w);
      PureKeepsWorld(m, f, l, w);
    case ENegate(l) =>
      OperatorForm(m, f, e, w);
      PureKeepsWorld(m, f, l, w);
    case EBin(_, l, r) =>
      OperatorForm(m, f, e, w);
      PureKeepsWorld(m, f, l, w);
      PureKeepsWorld(m, f, r, w);
    case _ => M.LeafForms(m, f, e, w);
  }

  /** Its value does not depend on what has been called or sent. */
  lemma {:induction false} PureBlindToTrace(m: Sem, f: Env, e: Expr, w: World, t: seq<Event>)
    requires IsPure(e)
    ensures Eval(m, f, e, w.(trace := t)) == (var r :- Eval(m, f, e, w); Some(Result(r.v, w.(trace := t))))
    decreases e, 1
  {
    hide Eval, Effect;
    var w' := w.(trace := t);
    match e
    case EIif(c, y, n) =>
      ChoiceForm(m, f, e, w);
      ChoiceForm(m, f, e, w');
      PureKeepsWorld(m, f, c, w);
      PureBlindToTrace(m, f, c, w, t);
      PureBlindToTrace(m, f, y, w, t);
      PureBlindToTrace(m, f, n, w, t);
    case EIndex(a, i) =>
      OperatorForm(m, f, e, w);
      OperatorForm(m, f, e, w');
      PureBlindPair(m, f, e, a, i, w, t);
    case EAnd(l, r) =>
      ShortForm(m, f, e, w);
      ShortForm(m, f, e, w');
      PureBlindPair(m, f, e, l, r, w, t);
    case EOr(l, r) =>
      ShortForm(m, f, e, w);
      ShortForm(m, f, e, w');
      PureBlindPair(m, f, e, l, r, w, t);
    case ENot(l) =>
      OperatorForm(m, f, e, w);
      OperatorForm(m, f, e, w');
      PureKeepsWorld(m, f, l, w);
      PureBlindToTrace(m, f, l, w, t);
    case ENegate(l) =>
      OperatorForm(m, f, e, w);
      OperatorForm(m, f, e, w');
      PureKeepsWorld(m, f, l, w);
      PureBlindToTrace(m, f, l, w, t);
    case EBin(_, l, r) =>
      OperatorForm(m, f, e, w);
      OperatorForm(m, f, e, w');
      PureBlindPair(m, f, e, l, r, w, t);
    case _ =>
      M.LeafForms(m, f, e, w);
      M.LeafForms(m, f, e, w');
  }

  lemma {:induction false} PureBlindPair(m: Sem, f: Env, e: Expr, a: Expr, b: Expr, w: World, t: seq<Event>)
    requires IsPure(a) && IsPure(b) && a < e && b < e
    ensures var w' := w.(trace := t);
      && (Eval(m, f, a, w).Some? ==> Eval(m, f, a, w).value.w == w)
      && (Eval(m, f, b, w).Some? ==> Eval(m, f, b, w).value.w == w)
      && Eval(m, f, a, w') == (var r :- Eval(m, f, a, w); Some(Result(r.v, w')))
      && Eval(m, f, b, w') == (var r :- Eval(m, f, b, w); Some(Result(r.v, w')))
    decreases e, 0
  {
    hide Eval, IsPure;
    PureKeepsWorld(m, f, a, w);
    PureKeepsWorld(m, f, b, w);
    PureBlindToTrace(m, f, a, w, t);
    PureBlindToTrace(m, f, b, w, t);
  }

  /** And run for its effect it does nothing. */
  lemma {:induction false} PureDoesNothing(m: Sem, f: Env, e: Expr, w: World)
    requires IsPure(e)
    ensures Effect(m, f, e, w).Some? ==> Effect(m, f, e, w).value == w
  {
    hide Eval, Effect;
    PureKeepsWorld(m, f, e, w);
    match e
    case EIif(c, t, n) =>
      ChoiceForm(m, f, e, w);
      PureKeepsWorld(m, f, c, w);
      PureDoesNothing(m, f, t, w);
      PureDoesNothing(m, f, n, w);
    case EIndex(a, i) =>
      OperatorForm(m, f, e, w);
      PureDoesNothing(m, f, a, w);
      PureDoesNothing(m, f, i, w);
    case EAnd(l, r) =>
      ShortForm(m, f, e, w);
      PureKeepsWorld(m, f, l, w);
      PureDoesNothing(m, f, r, w);
    case EOr(l, r) =>
      ShortForm(m, f, e, w);
      PureKeepsWorld(m, f, l, w);
      PureDoesNothing(m, f, r, w);
    case ENot(l) =>
      OperatorForm(m, f, e, w);
      PureDoesNothing(m, f, l, w);
    case ENegate(l) =>
      OperatorForm(m, f, e, w);
      PureDoesNothing(m, f, l, w);
    case EBin(_, l, r) =>
      OperatorForm(m, f, e, w);
      PureDoesNothing(m, f, l, w);
      PureDoesNothing(m, f, r, w);
    case _ => M.LeafForms(m, f, e, w);
  }

  // ----- where the two differ -----

  predicate AllSteady(f: Env, es: Exprs)
  {
    es.NoMore? || (Steady(f, es.head) && AllSteady(f, es.tail))
  }

  lemma {:induction false} ValueArg(m: Sem, f: Env, e: Expr, w: World)
    requires IsValue(f, e)
    ensures EvalArg(m, f, e, w) == (var r :- Eval(m, f, e, w); Some(Pushed(Val(r.v), r.w)))
    decreases e
  {
    hide Effect;
    if e.EIif? {
      var r := Eval(m, f, e.cond, w);
      if r.Some? && Truth(r.value.v).Some? {
        ValueArg(m, f, if r.value.v.b then e.yes else e.no, r.value.w);
      }
    }
  }

  lemma {:induction false} ElementsForEffect(m: Sem, f: Env, es: Exprs, w: World)
    requires AllValues(f, es) && AllSteady(f, es) && EvalArgs(m, f, es, w).Some?
    ensures EffectAll(m, f, es, w) == Some(EvalArgs(m, f, es, w).value.w)
    decreases es
  {
    hide Effect, Eval, Steady, IsValue, EvalArg;
    if es.More? {
      ValueArg(m, f, es.head, w);
      EffectIsEval(m, f, es.head, w);
      ElementsForEffect(m, f, es.tail, EvalArg(m, f, es.head, w).value.w);
    }
  }

  /** A literal array that is dropped is never built: its elements are evaluated, but the heap stays
      one array smaller than if the value had been computed. */
  lemma DroppedArray(m: Sem, f: Env, es: Exprs, w: World)
    requires AllValues(f, es) && AllSteady(f, es) && Eval(m, f, EArray(es), w).Some?
    ensures var full := Eval(m, f, EArray(es), w).value.w;
      && Effect(m, f, EArray(es), w).Some?
      && Effect(m, f, EArray(es), w).value == full.(heap := full.heap[..|full.heap| - 1])
      && Effect(m, f, EArray(es), w).value != full
  {
    hide Steady, IsValue, EvalArg;
    ElementsForEffect(m, f, es, w);
    var r := EvalArgs(m, f, es, w).value;
    var full := Eval(m, f, EArray(es), w).value.w;
    assert full.heap[..|full.heap| - 1] == r.w.heap;
  }

  /** Messages that change nothing but the record of messages sent. */
  ghost predicate Quiet(m: Sem)
  {
    forall o, msg, args, w :: m.send(o, msg, args, w).Some? ==> m.send(o, msg, args, w).value.w == w
  }

  lemma QuietSend(m: Sem, o: Value, msg: U16, args: seq<Item>, w: World)
    requires Quiet(m) && DoSend(m, o, msg, args, w).Some?
    ensures DoSend(m, o, msg, args, w).value.w == w.(trace := w.trace + [Sent(o, msg, args)])
  {
  }

  /** `o:msg++` sends the access message twice when its value is wanted and once when it is not,
      except for the stack form used without the extended optimisations: only then is the trace the
      same. Strict mode without them evaluates the object again and again, so there it must be one
      that changes nothing. */
  lemma FieldPostTrace(m: Sem, f: Env, inc: bool, o: Expr, msg: U16, w: World)
    requires Quiet(m) && (f.harbour || f.extopt || IsPure(o))
    requires var e := EStep(false, inc, EField(o, msg)); Eval(m, f, e, w).Some? && Effect(m, f, e, w).Some?
    ensures var e := EStep(false, inc, EField(o, msg));
      Effect(m, f, e, w).value.trace == Eval(m, f, e, w).value.w.trace <==> f.harbour && !f.extopt
  {
    hide Eval, Effect, EvalPre, EvalPost, Quiet, IsPure;
    var e := EStep(false, inc, EField(o, msg));
    if f.harbour && !f.extopt {
      EffectIsEval(m, f, e, w);
    } else {
      AssignForm(m, f, e, w);
      PostSends(m, f, e, w);
      PreSends(m, f, e, w);
    }
  }

  /** The world after the object of the field has been evaluated once. */
  function Reached(m: Sem, f: Env, l: Expr, w: World): World
    requires l.EField?
  {
    var o := Eval(m, f, l.obj, w);
    if o.Some? then o.value.w else w
  }

  lemma FetchOnce(m: Sem, f: Env, l: Expr, w: World)
    requires l.EField? && (f.harbour || IsPure(l.obj))
    ensures Fetch(m, f, l, w) == (
      var o :- Eval(m, f, l.obj, w);
      var cur :- GetField(m, o.v, l.msg, o.w);
      Some(Fetched(o.v, cur.v, cur.w)))
  {
    hide Eval, IsPure, DoSend;
    if !f.harbour {
      PureKeepsWorld(m, f, l.obj, w);
    }
  }

  lemma PreSends(m: Sem, f: Env, e: Expr, w: World)
    requires Quiet(m) && e.EStep? && e.lhs.EField? && (f.harbour || f.extopt || IsPure(e.lhs.obj)) && EvalPre(m, f,
        e, w).Some?
    ensures |EvalPre(m, f, e, w).value.w.trace| == |Reached(m, f, e.lhs, w).trace| + 2
  {
    hide Quiet, Eval, IsPure;
    var o := Eval(m, f, e.lhs.obj, w).value;
    if f.extopt {
      StepSends(m, f, e.inc, MsgLoc(o.v, f.setter(e.lhs.msg)), o.w);
    } else {
      FetchOnce(m, f, e.lhs, w);
      PutSends(m, f, e, o.v, o.w);
    }
  }

  /** A step through a reference to a field: one get and one set. */
  lemma StepSends(m: Sem, f: Env, inc: bool, loc: Loc, w: World)
    requires Quiet(m) && loc.MsgLoc? && StepLoc(m, inc, loc, w).Some?
    ensures |StepLoc(m, inc, loc, w).value.w.trace| == |w.trace| + 2
  {
    hide Quiet;
    QuietSend(m, loc.obj, m.getter(loc.setter), [], w);
    var cur := DoSend(m, loc.obj, m.getter(loc.setter), [], w).value;
    QuietSend(m, loc.obj, loc.setter, [Val(m.unary(StepOp(inc), cur.v).value)], cur.w);
  }

  lemma PostSends(m: Sem, f: Env, e: Expr, w: World)
    requires Quiet(m) && e.EStep? && e.lhs.EField? && (f.extopt || (!f.harbour && IsPure(e.lhs.obj))) && EvalPost(m,
        f, e, w).Some?
    ensures |EvalPost(m, f, e, w).value.w.trace| == |Reached(m, f, e.lhs, w).trace| + 3
  {
    hide Quiet, Eval, IsPure, EvalPre;
    MessageForm(m, f, e.lhs, w);
    var o := Eval(m, f, e.lhs.obj, w).value;
    if f.extopt {
      var loc := MsgLoc(o.v, f.setter(e.lhs.msg));
      QuietSend(m, o.v, m.getter(loc.setter), [], o.w);
      StepSends(m, f, e.inc, loc, Deref(m, loc, o.w).value.w);
    } else {
      PureKeepsWorld(m, f, e.lhs.obj, w);
      QuietSend(m, o.v, e.lhs.msg, [], w);
      var w1 := Eval(m, f, e.lhs, w).value.w;
      PureBlindToTrace(m, f, e.lhs.obj, w, w1.trace);
      PreSends(m, f, e, w1);
    }
  }

  /** One get and one set. */
  lemma PutSends(m: Sem, f: Env, e: Expr, v: Value, w: World)
    requires Quiet(m) && e.EStep? && e.lhs.EField?
    requires var cur := GetField(m, v, e.lhs.msg, w);
      && cur.Some? && m.unary(StepOp(e.inc), cur.value.v).Some?
      && PutField(m, f, v, e.lhs.msg, m.unary(StepOp(e.inc), cur.value.v).value, cur.value.w).Some?
    ensures var cur := GetField(m, v, e.lhs.msg, w).value;
      |PutField(m, f, v, e.lhs.msg, m.unary(StepOp(e.inc), cur.v).value, cur.w).value.w.trace| == |w.trace| + 2
  {
    hide Quiet;
    QuietSend(m, v, e.lhs.msg, [], w);
    var cur := GetField(m, v, e.lhs.msg, w).value;
    QuietSend(m, v, f.setter(e.lhs.msg), [Val(m.unary(StepOp(e.inc), cur.v).value)], cur.w);
  }

  // ----- an element of what a method call returns -----

  /** The code for storing into an element of a method call is that for a field of the same name: the
      arguments are in neither. */
  lemma ArgumentsDropped(f: Env, o: Expr, msg: U16, es: Exprs, i: Expr)
    requires f.arrstr
    ensures Pop(f, EIndex(EMethod(o, msg, es), i)) == Pop(f, EIndex(EField(o, msg), i))
    ensures Ref(f, EIndex(EMethod(o, msg, es), i)) == Ref(f, EIndex(EField(o, msg), i))
  {
    assert Ref(f, EMethod(o, msg, es)) == Ref(f, EField(o, msg));
    assert PushBase(f, EMethod(o, msg, es)) == PushBase(f, EField(o, msg));
  }

  /** The element as it is written: the call is made, then the index is evaluated. */
  function ElementOfCall(m: Sem, f: Env, call: Expr, i: Expr, w: World): Option<Placed>
    requires call.EMethod?
  {
    var a :- Eval(m, f, call, w);
    var ri :- Eval(m, f, i, a.w);
    var loc :- ElementLoc(ri.w, a.v, ri.v);
    Some(Placed(loc, ri.w))
  }

  /** The element as it is found when the call is taken for a field. */
  lemma ElementOfField(m: Sem, f: Env, call: Expr, i: Expr, w: World)
    requires call.EMethod? && f.arrstr
    ensures Place(m, f, EIndex(call, i), w) == (
      var o :- Eval(m, f, call.obj, w);
      var ri :- Eval(m, f, i, o.w);
      var a :- DoSend(m, o.v, m.getter(f.setter(call.msg)), [], ri.w);
      var loc :- ElementLoc(a.w, a.v, ri.v);
      Some(Placed(loc, a.w)))
  {
    hide Eval, DoSend, ElementLoc;
    assert Base(m, f, call, w) == (var o :- Eval(m, f, call.obj, w); Some(Pushed(RefTo(MsgLoc(o.v,
        f.setter(call.msg))), o.w)));
  }

  lemma PlainElement(m: Sem, f: Env, call: Expr, i: Expr, w: World)
    requires call.EMethod? && !f.arrstr
    ensures Place(m, f, EIndex(call, i), w) == ElementOfCall(m, f, call, i, w)
  {
    hide Eval, ElementLoc;
  }

  lemma NoArgs(m: Sem, f: Env, w: World)
    ensures EvalArgs(m, f, NoMore, w) == Some(PushedAll([], w))
  {
  }

  /** `o:m( args )[ i ]` as something to be written is found as it is written if and only if strings
      do not count as arrays, or the call has no arguments and `m` is the access message that belongs
      to its assign message. Otherwise another message is sent, without the arguments. */
  lemma MethodBase(m: Sem, f: Env, call: Expr, i: Expr, w: World)
    requires Quiet(m) && call.EMethod? && IsPure(i)
    requires ElementOfCall(m, f, call, i, w).Some? && Place(m, f, EIndex(call, i), w).Some?
    ensures Place(m, f, EIndex(call, i), w) == ElementOfCall(m, f, call, i, w) <==>
      !f.arrstr || (call.args.NoMore? && m.getter(f.setter(call.msg)) == call.msg)
  {
    hide Eval, Quiet, IsPure, EvalArgs, DoSend, Place, ElementLoc;
    if !f.arrstr {
      PlainElement(m, f, call, i, w);
    } else {
      ElementOfField(m, f, call, i, w);
      MessageForm(m, f, call, w);
      var o := Eval(m, f, call.obj, w).value;
      var args := EvalArgs(m, f, call.args, o.w).value;
      var get := m.getter(f.setter(call.msg));
      ArgsCount(m, f, call.args, o.w);
      PureKeepsWorld(m, f, i, o.w);
      QuietSend(m, o.v, call.msg, args.items, args.w);
      QuietSend(m, o.v, get, [], o.w);
      PureKeepsWorld(m, f, i, Eval(m, f, call, w).value.w);
      var sent, meant := o.w.trace + [Sent(o.v, get, [])], args.w.trace + [Sent(o.v, call.msg, args.items)];
      assert Place(m, f, EIndex(call, i), w).value.w.trace == sent;
      assert ElementOfCall(m, f, call, i, w).value.w.trace == meant;
      if call.args.NoMore? && get == call.msg {
        NoArgs(m, f, o.w);
        PureBlindToTrace(m, f, i, o.w, sent);
      } else {
        assert sent[|sent| - 1] != meant[|meant| - 1];
      }
    }
  }

  // ----- work areas -----

  /** However the body changes the work area, and however deep such expressions are nested, the code
      of `alias->( body )` ends in the area it started in, with one more item or with none. */
  lemma AreaRestored(m: Sem, f: Env, alias: Expr, body: Expr, s: State)
    requires Lawful(m) && IsValue(f, EAliased(alias, body))
    ensures var r := Den(m, Push(f, EAliased(alias, body)), s);
      r.Some? ==> r.value.w.area == s.w.area && r.value.stack.Item? && r.value.stack.rest == s.stack
    ensures var r := Den(m, Eff(f, EAliased(alias, body)), s);
      r.Some? ==> r.value.w.area == s.w.area && r.value.stack == s.stack
  {
    hide Exec, Push, Eff, IsValue, Lawful, Den;
    PushOk(m, f, EAliased(alias, body), s);
    EffOk(m, f, EAliased(alias, body), s);
  }

  /** The value and the effect of `alias->( body )` when the alias selects `area`: those of the body
      there, with the area of before put back. */
  predicate RunsIn(m: Sem, f: Env, alias: Expr, body: Expr, w: World, area: U16)
    requires Eval(m, f, alias, w).Some?
  {
    var w1 := Eval(m, f, alias, w).value.w.(area := area);
    && Eval(m, f, EAliased(alias, body), w) == (var r :- Eval(m, f, body, w1); Some(Result(r.v, r.w.(area := w.area))))
    && Effect(m, f, EAliased(alias, body), w) == (var w2 :- Effect(m, f, body, w1); Some(w2.(area := w.area)))
  }

  /** Symbols and names select the area they are the alias of, and fail if there is none; numbers select
      the area of that number, doubles that of their whole part, and numbers of no area, like all other
      values, area 0. */
  lemma AliasSelects(m: Sem, f: Env, alias: Expr, body: Expr, w: World)
    requires Eval(m, f, alias, w).Some?
    ensures var a := Eval(m, f, alias, w).value;
      match a.v
      case Symbol(_) =>
        if m.alias(a.v, a.w).Some? then RunsIn(m, f, alias, body, w, m.alias(a.v, a.w).value)
        else Eval(m, f, EAliased(alias, body), w) == None && Effect(m, f, EAliased(alias, body), w) == None
      case Other(_) =>
        if m.alias(a.v, a.w).Some? then RunsIn(m, f, alias, body, w, m.alias(a.v, a.w).value)
        else Eval(m, f, EAliased(alias, body), w) == None && Effect(m, f, EAliased(alias, body), w) == None
      case Num(n) => RunsIn(m, f, alias, body, w, if 1 <= n <= 65535 then n else 0)
      case Dbl(r) =>
        && (forall n: int :: 1 <= n <= 65535 && n as real <= r < n as real + 1.0 ==> RunsIn(m, f, alias, body, w, n))
        && (r < 1.0 || r >= 65536.0 ==> RunsIn(m, f, alias, body, w, 0))
      case _ => RunsIn(m, f, alias, body, w, 0)
  {
    hide Eval, Effect;
    MessageForm(m, f, EAliased(alias, body), w);
  }

  lemma FieldOfArea(m: Sem, f: Env, s: U16, x: U16, w: World)
    requires m.alias(Symbol(s), w).Some?
    ensures Eval(m, f, EAliased(EAliasSym(s), EVar(FieldVar(x))), w) == (
      var v :- Get(w, FieldCell(m.alias(Symbol(s), w).value, x));
      Some(Result(v, w)))
  {
    hide Effect;
    AliasSelects(m, f, EAliasSym(s), EVar(FieldVar(x)), w);
  }

  /** The code of `s->( FIELD->x )` pushes the field of the area that has the alias `s`, and changes
      nothing. */
  lemma FieldOfAreaPushed(m: Sem, f: Env, s: U16, x: U16, st: State)
    requires Lawful(m) && m.alias(Symbol(s), st.w).Some?
    requires FieldCell(m.alias(Symbol(s), st.w).value, x) in st.w.cells
    ensures Den(m, Push(f, EAliased(EAliasSym(s), EVar(FieldVar(x)))), st) ==
      Some(State(PushVal(st.w.cells[FieldCell(m.alias(Symbol(s), st.w).value, x)], st.stack), st.w))
  {
    hide Exec, Push, Eff, Lawful, Den, Eval;
    FieldOfArea(m, f, s, x, st.w);
    PushOk(m, f, EAliased(EAliasSym(s), EVar(FieldVar(x))), st);
  }

  // ----- SWAP -----

  /** Items put on the stack, the first of them on top. */
  function Over(items: seq<Item>, st: Stack): Stack
  {
    if items == [] then st else Stack.Item(items[0], Over(items[1..], st))
  }

  lemma OverFirst(a: Item, items: seq<Item>, st: Stack)
    ensures Over([a] + items, st) == Stack.Item(a, Over(items, st))
  {
    assert ([a] + items)[1..] == items;
  }

  /** SWAP n turns the top item below the next n + 1 and touches nothing else. */
  lemma {:induction false} SwapRotates(n: nat, a: Item, items: seq<Item>, st: Stack)
    requires |items| == n + 1
    ensures Swap(n, Over([a] + items, st)) == Some(Over(items + [a], st))
  {
    hide Over;
    var b, rest := items[0], items[1..];
    assert items == [b] + rest && items + [a] == [b] + (rest + [a]);
    OverFirst(a, items, st);
    OverFirst(b, rest, st);
    OverFirst(b, rest + [a], st);
    OverFirst(a, rest, st);
    if n == 0 {
      assert rest == [] && rest + [a] == [a] + rest;
    } else {
      SwapRotates(n - 1, a, rest, st);
    }
  }

  /** Below n + 2 items there is nothing to turn. */
  lemma {:induction false} SwapNeeds(n: nat, items: seq<Item>)
    requires |items| < n + 2
    ensures Swap(n, Over(items, Stack.Empty)) == None
  {
    if |items| >= 2 && n > 0 {
      assert items[1..][1..] == items[2..];
      assert ([items[0]] + items[2..])[1..] == items[2..];
      SwapNeeds(n - 1, [items[0]] + items[2..]);
    } else if |items| == 1 {
      assert Over(items[1..], Stack.Empty) == Stack.Empty;
    }
  }

  // ----- SETGET: iif( var == NIL, target, target := var ) -----

  function IsNilTest(f: Env, x: Expr, yes: Asm, no: Asm): Asm
  {
    Cat(Push(f, x), Cat(Op0(OPushNil), Cat(Op0(OBin(Rel(ExactlyEqual))), IfElse(yes, no))))
  }

  function PushSetGet(f: Env, x: Expr, target: Expr): Asm
  {
    IsNilTest(f, x, Push(f, target), Push(f, EAssign(target, x)))
  }

  /** Used as a statement, the form still pushes the target when the variable is NIL. */
  function EffSetGet(f: Env, x: Expr, target: Expr): Asm
  {
    IsNilTest(f, x, Push(f, target), Eff(f, EAssign(target, x)))
  }

  lemma IsNilTestOk(m: Sem, f: Env, x: Expr, yes: Asm, no: Asm, s: State)
    requires Lawful(m) && IsValue(f, x)
    ensures Den(m, IsNilTest(f, x, yes, no), s) == (
      var r :- Eval(m, f, x, s.w);
      var v :- m.binary(Rel(ExactlyEqual), r.v, Nil);
      var b :- Truth(v);
      Den(m, if b then yes else no, State(s.stack, r.w)))
  {
    hide Exec, Lawful, Push, Eval, IsValue;
    PushOk(m, f, x, s);
    var r := Eval(m, f, x, s.w);
    if r.Some? {
      var s1 := State(PushVal(r.value.v, s.stack), r.value.w);
      var test := Op0(OBin(Rel(ExactlyEqual)));
      Chain(m, Op0(OPushNil), Cat(test, IfElse(yes, no)), s1);
      ConstExec(m, false, 0, s1);
      Chain(m, test, IfElse(yes, no), State(PushVal(Nil, s1.stack), s1.w));
      BinOpOk(m, Rel(ExactlyEqual), r.value.v, Nil, State(s.stack, s1.w));
    }
  }

  /** Both forms read the variable and compare it with NIL. If it is NIL the target is pushed, by the
      statement form too; if not, the variable is assigned to the target, and the value form leaves
      what was assigned. */
  lemma SetGetMeans(m: Sem, f: Env, x: Expr, target: Expr, s: State)
    requires Lawful(m) && IsValue(f, x) && IsValue(f, target) && IsLvalue(f, target)
    requires Eval(m, f, x, s.w).Some?
    ensures var r := Eval(m, f, x, s.w).value;
      var isNil := m.binary(Rel(ExactlyEqual), r.v, Nil);
      && (isNil == Some(Logical(true)) ==>
            Den(m, PushSetGet(f, x, target), s) == Den(m, EffSetGet(f, x, target), s)
              == Ret(s.stack, Eval(m, f, target, r.w)))
      && (isNil == Some(Logical(false)) ==>
            && Den(m, PushSetGet(f, x, target), s) == Ret(s.stack, Eval(m, f, EAssign(target, x), r.w))
            && Den(m, EffSetGet(f, x, target), s) == Done(s.stack, Effect(m, f, EAssign(target, x), r.w)))
      && (isNil.None? || !isNil.value.Logical? ==>
            Den(m, PushSetGet(f, x, target), s) == Den(m, EffSetGet(f, x, target), s) == None)
  {
    hide Exec, Lawful, Push, Eff, Eval, Effect, IsValue, IsLvalue;
    var r := Eval(m, f, x, s.w).value;
    IsNilTestOk(m, f, x, Push(f, target), Push(f, EAssign(target, x)), s);
    IsNilTestOk(m, f, x, Push(f, target), Eff(f, EAssign(target, x)), s);
    AssignIsValue(f, target, x);
    PushOk(m, f, target, State(s.stack, r.w));
    PushOk(m, f, EAssign(target, x), State(s.stack, r.w));
    EffOk(m, f, EAssign(target, x), State(s.stack, r.w));
  }

  /** The value form is balanced: one more item, whatever the variable holds. */
  lemma SetGetPushesOne(m: Sem, f: Env, x: Expr, target: Expr, s: State)
    requires Lawful(m) && IsValue(f, x) && IsValue(f, target) && IsLvalue(f, target)
    ensures var r := Den(m, PushSetGet(f, x, target), s);
      r.Some? ==> r.value.stack.Item? && r.value.stack.rest == s.stack
  {
    hide Exec, Lawful, Push, Eval, IsValue, IsLvalue;
    IsNilTestOk(m, f, x, Push(f, target), Push(f, EAssign(target, x)), s);
    var r := Eval(m, f, x, s.w);
    if r.Some? {
      PushOk(m, f, target, State(s.stack, r.value.w));
      AssignIsValue(f, target, x);
      PushOk(m, f, EAssign(target, x), State(s.stack, r.value.w));
    }
  }

  lemma AssignIsValue(f: Env, target: Expr, x: Expr)
    requires IsLvalue(f, target) && IsValue(f, x)
    ensures IsValue(f, EAssign(target, x))
  {
  }

  /** The statement form is balanced exactly when the variable does not compare equal to NIL: the
      other branch leaves the value of the target behind. */
  lemma SetGetStatement(m: Sem, f: Env, x: Expr, target: Expr, s: State)
    requires Lawful(m) && IsValue(f, x) && IsValue(f, target) && IsLvalue(f, target)
    requires Den(m, EffSetGet(f, x, target), s).Some?
    ensures Eval(m, f, x, s.w).Some?
    ensures var st, v := Den(m, EffSetGet(f, x, target), s).value.stack, Eval(m, f, x, s.w).value.v;
      && (st == s.stack <==> m.binary(Rel(ExactlyEqual), v, Nil) == Some(Logical(false)))
      && (st != s.stack ==> st.Item? && st.rest == s.stack)
  {
    hide Exec, Lawful, Push, Eff, Eval, IsValue, IsLvalue;
    IsNilTestOk(m, f, x, Push(f, target), Eff(f, EAssign(target, x)), s);
    var r := Eval(m, f, x, s.w).value;
    PushOk(m, f, target, State(s.stack, r.w));
    AssignIsValue(f, target, x);
    EffOk(m, f, EAssign(target, x), State(s.stack, r.w));
  }
}
