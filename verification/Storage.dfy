/** What the evaluator and the machine share, seen from outside: variables, elements and references
    hold what was last put into them, and different ones are different storage. */
module Storage {
  import opened Wrappers
  import opened Runtime
  import opened Expr
  import opened Forms

  // ----- variables -----

  /** Where an assignment to the name goes. */
  function Written(x: Var, w: World): Cell
  {
    match x
    case Local(p) => LocalCell(p)
    case BlockLocal(p) => LocalCell(p)
    case Static(s) => StaticCell(s)
    case Memvar(s) => MemvarCell(s)
    case FieldVar(s) => FieldCell(w.area, s)
    case Undeclared(s) => MemvarCell(s)
  }

  /** An undeclared name is hidden by a field of the current work area. */
  predicate Hidden(x: Var, w: World)
  {
    x.Undeclared? && FieldCell(w.area, x.usym) in w.cells
  }

  /** Two names that may stand for one variable. */
  predicate SameName(x: Var, y: Var)
  {
    || x == y
    || (x.Undeclared? && (y == Memvar(x.usym) || y == FieldVar(x.usym)))
    || (y.Undeclared? && (x == Memvar(y.usym) || x == FieldVar(y.usym)))
  }

  /** What is assigned is read back if and only if no field hides the name (or it was there before), no
      other name changes, and assigning fails for a missing field only. */
  lemma WriteThenRead(x: Var, v: Value, w: World)
    ensures WriteVar(w, x, v).None? <==> x.FieldVar? && ReadVar(w, x).None?
    ensures WriteVar(w, x, v).Some? ==>
      var w' := WriteVar(w, x, v).value;
      && w' == w.(cells := w.cells[Written(x, w) := v])
      && (ReadVar(w', x) == Some(v) <==> !Hidden(x, w) || ReadVar(w, x) == Some(v))
      && forall y :: !SameName(x, y) ==> ReadVar(w', y) == ReadVar(w, y)
  {
  }

  /** A reference to a variable reads and writes the cell that assignments to its name write, whatever
      name it is passed under. */
  lemma ReferenceIsVariable(m: Sem, f: Env, x: Var, v: Value, w: World)
    requires !x.FieldVar?
    ensures EvalArg(m, f, ERef(EVar(x)), w).Some? <==> Written(x, w) in w.cells
    ensures Written(x, w) in w.cells ==>
      var p := EvalArg(m, f, ERef(EVar(x)), w).value;
      && p.w == w && p.item.RefTo?
      && Deref(m, p.item.loc, w) == Some(Result(w.cells[Written(x, w)], w))
      && Store(m, p.item.loc, v, w) == WriteVar(w, x, v)
  {
    RefArg(m, f, EVar(x), w);
  }

  // ----- elements -----

  /** The fraction is cut off, towards zero. */
  lemma TruncateCuts(r: real)
    ensures r >= 0.0 ==> Truncate(r) as real <= r < Truncate(r) as real + 1.0
    ensures r <= 0.0 ==> Truncate(r) as real - 1.0 < r <= Truncate(r) as real
  {
  }

  /** An array has the elements 1 to its length; a number with a fraction stands for its whole part, and
      nothing else is an index. */
  lemma ElementsOf(w: World, a: Value, i: Value)
    ensures ElementLoc(w, a, i).Some? ==> a.Array? && (i.Num? || i.Dbl?)
    ensures a.Array? && i.Num? ==>
      ElementLoc(w, a, i) ==
        if a.id < |w.heap| && 1 <= i.n <= |w.heap[a.id]| then Some(ElemLoc(a.id, i.n)) else None
    ensures a.Array? && i.Dbl? ==>
      && (i.r < 1.0 ==> ElementLoc(w, a, i) == None)
      && forall k: int :: 1 <= k && k as real <= i.r < k as real + 1.0 ==> ElementLoc(w, a, i) == ElementLoc(w, a, Num(k))
  {
  }

  /** What is stored in an element is read back from it, and every other element of every array is as it
      was. */
  lemma StoreElement(m: Sem, w: World, a: Value, i: Value, v: Value, b: Value, j: Value)
    requires ElementLoc(w, a, i).Some?
    ensures var w' := Store(m, ElementLoc(w, a, i).value, v, w);
      && w'.Some? && Element(w'.value, a, i) == Some(v)
      && ElementLoc(w'.value, b, j) == ElementLoc(w, b, j)
      && (ElementLoc(w, b, j) != ElementLoc(w, a, i) ==> Element(w'.value, b, j) == Element(w, b, j))
      && w' == Some(w.(heap := w'.value.heap))
  {
  }

  /** A literal array is a new one, with the values of its elements in order. */
  lemma ArrayBuilt(m: Sem, f: Env, es: Exprs, w: World)
    requires EvalArgs(m, f, es, w).Some?
    ensures var r, d := EvalArgs(m, f, es, w).value, Eval(m, f, EArray(es), w);
      && (d.None? <==> exists k :: 0 <= k < |r.items| && r.items[k].RefTo?)
      && (d.Some? ==>
            && d.value.v == Array(|r.w.heap|) && d.value.w == r.w.(heap := d.value.w.heap)
            && |d.value.w.heap| == |r.w.heap| + 1 && d.value.w.heap[..|r.w.heap|] == r.w.heap
            && var row := d.value.w.heap[|r.w.heap|];
               |row| == |r.items| && forall k :: 0 <= k < |row| ==> r.items[k] == Val(row[k]))
  {
    hide Eval, EvalArgs;
    ListForm(m, f, EArray(es), w);
    ItemValues(EvalArgs(m, f, es, w).value.items);
  }

  lemma {:induction false} ItemValues(items: seq<Item>)
    ensures PlainValues(items).None? <==> exists k :: 0 <= k < |items| && items[k].RefTo?
    ensures PlainValues(items).Some? ==>
      && |PlainValues(items).value| == |items|
      && forall k :: 0 <= k < |items| ==> items[k] == Val(PlainValues(items).value[k])
  {
    if items != [] {
      var rest := items[1..];
      ItemValues(rest);
      if PlainValues(rest).None? {
        var k :| 0 <= k < |rest| && rest[k].RefTo?;
        assert items[k + 1].RefTo?;
      } else if items[0].Val? {
        forall k | 0 <= k < |items|
          ensures items[k] == Val(PlainValues(items).value[k])
        {
          if k > 0 {
            assert items[k] == rest[k - 1];
          }
        }
      }
    }
  }

  // ----- calls, messages and conditions -----

  /** A call is made once, with the items its arguments leave, and put on record. */
  lemma CallIsMade(m: Sem, f: Env, g: U16, es: Exprs, w: World)
    requires EvalArgs(m, f, es, w).Some?
    ensures var r := EvalArgs(m, f, es, w).value;
      Eval(m, f, ECall(g, es), w) == m.call(g, r.items, r.w.(trace := r.w.trace + [Called(g, r.items)]))
  {
    hide Eval, EvalArgs;
    ListForm(m, f, ECall(g, es), w);
  }

  /** A message is sent to the value of the object expression; an assignment to a field sends the assign
      message with the value, evaluated after the object. */
  lemma MessageIsSent(m: Sem, f: Env, o: Expr, msg: U16, es: Exprs, e: Expr, w: World)
    requires Eval(m, f, o, w).Some?
    ensures var obj := Eval(m, f, o, w).value;
      Eval(m, f, EField(o, msg), w) == m.send(obj.v, msg, [], obj.w.(trace := obj.w.trace + [Sent(obj.v, msg, [])]))
    ensures var obj := Eval(m, f, o, w).value;
      Eval(m, f, EMethod(o, msg, es), w) == (
      var r :- EvalArgs(m, f, es, obj.w);
      m.send(obj.v, msg, r.items, r.w.(trace := r.w.trace + [Sent(obj.v, msg, r.items)])))
    ensures var obj := Eval(m, f, o, w).value;
      Eval(m, f, EAssign(EField(o, msg), e), w) == (
      var r :- Eval(m, f, e, obj.w);
      m.send(obj.v, f.setter(msg), [Val(r.v)], r.w.(trace := r.w.trace + [Sent(obj.v, f.setter(msg), [Val(r.v)])])))
  {
    hide Eval, EvalArgs;
    MessageForm(m, f, EField(o, msg), w);
    MessageForm(m, f, EMethod(o, msg, es), w);
    AssignForm(m, f, EAssign(EField(o, msg), e), w);
  }

  /** Only a logical decides; any other condition is an error. */
  lemma ConditionDecides(m: Sem, f: Env, c: Expr, t: Expr, n: Expr, w: World)
    requires Eval(m, f, c, w).Some?
    ensures var r := Eval(m, f, c, w).value;
      match r.v
      case Logical(b) =>
        && Eval(m, f, EIif(c, t, n), w) == Eval(m, f, if b then t else n, r.w)
        && Effect(m, f, EIif(c, t, n), w) == Effect(m, f, if b then t else n, r.w)
      case _ => Eval(m, f, EIif(c, t, n), w) == None && Effect(m, f, EIif(c, t, n), w) == None
  {
    hide Eval, Effect;
    ChoiceForm(m, f, EIif(c, t, n), w);
  }
}
