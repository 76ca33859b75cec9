/** Worlds that differ only in how their arrays are numbered and in arrays that nothing related
    refers to, such as the literal array a rewriting saves. */
module Likeness {
  import opened Wrappers
  import opened Runtime
  import opened Expr

  /** How the arrays of one world correspond to those of another; `Same` relates equal worlds only. */
  datatype Ids = Same | Renamed(ids: map<nat, nat>)

  predicate Like(j: Ids, a: Value, b: Value)
  {
    if j.Renamed? && a.Array? then b.Array? && a.id in j.ids && j.ids[a.id] == b.id else a == b
  }

  predicate LikeLoc(j: Ids, a: Loc, b: Loc)
  {
    match (a, b)
    case (CellLoc(c), CellLoc(d)) => c == d
    case (ElemLoc(x, i), ElemLoc(y, k)) => i == k && Like(j, Array(x), Array(y))
    case (MsgLoc(o, s), MsgLoc(p, t)) => s == t && Like(j, o, p)
    case _ => false
  }

  predicate LikeItem(j: Ids, a: Item, b: Item)
  {
    match (a, b)
    case (Val(v), Val(x)) => Like(j, v, x)
    case (RefTo(l), RefTo(p)) => LikeLoc(j, l, p)
    case _ => false
  }

  predicate LikeValues(j: Ids, s: seq<Value>, t: seq<Value>)
  {
    |s| == |t| && forall i :: 0 <= i < |s| ==> Like(j, s[i], t[i])
  }

  predicate LikeItems(j: Ids, s: seq<Item>, t: seq<Item>)
  {
    |s| == |t| && forall i :: 0 <= i < |s| ==> LikeItem(j, s[i], t[i])
  }

  predicate LikeEvent(j: Ids, a: Event, b: Event)
  {
    match (a, b)
    case (Called(g, s), Called(h, t)) => g == h && LikeItems(j, s, t)
    case (Sent(o, g, s), Sent(p, h, t)) => g == h && Like(j, o, p) && LikeItems(j, s, t)
    case _ => false
  }

  predicate LikeCells(j: Ids, c: map<Cell, Value>, d: map<Cell, Value>)
  {
    c.Keys == d.Keys && forall x :: x in c ==> Like(j, c[x], d[x])
  }

  /** Corresponding arrays have the same length and corresponding elements. */
  predicate LikeHeap(j: Ids, g: seq<seq<Value>>, h: seq<seq<Value>>)
  {
    j.Renamed? ==>
      && (forall x, y :: x in j.ids && y in j.ids && j.ids[x] == j.ids[y] ==> x == y)
      && forall x :: x in j.ids ==> x < |g| && j.ids[x] < |h| && LikeValues(j, g[x], h[j.ids[x]])
  }

  predicate LikeTrace(j: Ids, s: seq<Event>, t: seq<Event>)
  {
    |s| == |t| && forall i :: 0 <= i < |s| ==> LikeEvent(j, s[i], t[i])
  }

  predicate LikeWorld(j: Ids, u: World, w: World)
  {
    if j.Same? then u == w
    else
      && u.area == w.area && LikeCells(j, u.cells, w.cells) && LikeHeap(j, u.heap, w.heap)
      && LikeTrace(j, u.trace, w.trace)
  }

  /** Later correspondences extend earlier ones. */
  predicate Grows(j: Ids, k: Ids)
  {
    match (j, k)
    case (Same, Same) => true
    case (Renamed(a), Renamed(b)) => forall x :: x in a ==> x in b && b[x] == a[x]
    case _ => false
  }

  // ----- what corresponds keeps corresponding -----

  lemma GrowsThen(j: Ids, k: Ids, l: Ids)
    requires Grows(j, k) && Grows(k, l)
    ensures Grows(j, l)
  {
  }

  lemma GrowsItself(j: Ids)
    ensures Grows(j, j)
  {
  }

  lemma Carry(j: Ids, k: Ids, a: Value, b: Value)
    requires Grows(j, k) && Like(j, a, b)
    ensures Like(k, a, b)
  {
  }

  lemma CarryLoc(j: Ids, k: Ids, a: Loc, b: Loc)
    requires Grows(j, k) && LikeLoc(j, a, b)
    ensures LikeLoc(k, a, b)
  {
  }

  lemma CarryItem(j: Ids, k: Ids, a: Item, b: Item)
    requires Grows(j, k) && LikeItem(j, a, b)
    ensures LikeItem(k, a, b)
  {
  }

  lemma CarryItems(j: Ids, k: Ids, s: seq<Item>, t: seq<Item>)
    requires Grows(j, k) && LikeItems(j, s, t)
    ensures LikeItems(k, s, t)
  {
    hide LikeItem, Grows;
    forall i | 0 <= i < |s|
      ensures LikeItem(k, s[i], t[i])
    {
      CarryItem(j, k, s[i], t[i]);
    }
  }

  lemma CarryEvent(j: Ids, k: Ids, a: Event, b: Event)
    requires Grows(j, k) && LikeEvent(j, a, b)
    ensures LikeEvent(k, a, b)
  {
    hide LikeItems, Grows, Like;
    match (a, b)
    case (Called(_, s), Called(_, t)) => CarryItems(j, k, s, t);
    case (Sent(o, _, s), Sent(p, _, t)) =>
      Carry(j, k, o, p);
      CarryItems(j, k, s, t);
  }

  lemma CarryTrace(j: Ids, k: Ids, s: seq<Event>, t: seq<Event>)
    requires Grows(j, k) && LikeTrace(j, s, t)
    ensures LikeTrace(k, s, t)
  {
    hide LikeEvent, Grows;
    forall i | 0 <= i < |s|
      ensures LikeEvent(k, s[i], t[i])
    {
      CarryEvent(j, k, s[i], t[i]);
    }
  }

  lemma CarryCells(j: Ids, k: Ids, c: map<Cell, Value>, d: map<Cell, Value>)
    requires Grows(j, k) && LikeCells(j, c, d)
    ensures LikeCells(k, c, d)
  {
    hide Like, Grows;
    forall x | x in c
      ensures Like(k, c[x], d[x])
    {
      Carry(j, k, c[x], d[x]);
    }
  }

  lemma CarryValues(j: Ids, k: Ids, s: seq<Value>, t: seq<Value>)
    requires Grows(j, k) && LikeValues(j, s, t)
    ensures LikeValues(k, s, t)
  {
    hide Like, Grows;
    forall i | 0 <= i < |s|
      ensures Like(k, s[i], t[i])
    {
      Carry(j, k, s[i], t[i]);
    }
  }

  lemma SameItem(a: Item, b: Item)
    requires LikeItem(Same, a, b)
    ensures a == b
  {
  }

  lemma SameItems(s: seq<Item>, t: seq<Item>)
    requires LikeItems(Same, s, t)
    ensures s == t
  {
    hide LikeItem;
    forall i | 0 <= i < |s|
      ensures s[i] == t[i]
    {
      SameItem(s[i], t[i]);
    }
  }

  lemma SameValues(s: seq<Value>, t: seq<Value>)
    requires LikeValues(Same, s, t)
    ensures s == t
  {
  }

  // ----- variables and work areas -----

  lemma AreaLike(j: Ids, u: World, w: World, a: U16)
    requires LikeWorld(j, u, w)
    ensures u.area == w.area && LikeWorld(j, u.(area := a), w.(area := a))
  {
    hide LikeCells, LikeHeap, LikeTrace;
  }

  lemma GetLike(j: Ids, u: World, w: World, c: Cell)
    requires LikeWorld(j, u, w)
    ensures Get(u, c).Some? == Get(w, c).Some? && (Get(u, c).Some? ==> Like(j, Get(u, c).value, Get(w, c).value))
  {
    hide LikeHeap, LikeTrace;
  }

  lemma PutCellLike(j: Ids, u: World, w: World, c: Cell, a: Value, b: Value)
    requires LikeWorld(j, u, w) && Like(j, a, b)
    ensures LikeWorld(j, u.(cells := u.cells[c := a]), w.(cells := w.cells[c := b]))
  {
    hide LikeHeap, LikeTrace;
  }

  lemma ReadLike(j: Ids, u: World, w: World, x: Var)
    requires LikeWorld(j, u, w)
    ensures var r, s := ReadVar(u, x), ReadVar(w, x); r.Some? == s.Some? && (r.Some? ==> Like(j, r.value, s.value))
  {
    hide LikeCells, LikeHeap, LikeTrace;
    AreaLike(j, u, w, 0);
    forall c: Cell
      ensures Get(u, c).Some? == Get(w, c).Some? && (Get(u, c).Some? ==> Like(j, Get(u, c).value, Get(w, c).value))
    {
      GetLike(j, u, w, c);
    }
  }

  lemma WriteLike(j: Ids, u: World, w: World, x: Var, a: Value, b: Value)
    requires LikeWorld(j, u, w) && Like(j, a, b)
    ensures var r, s := WriteVar(u, x, a), WriteVar(w, x, b); r.Some? ==> s.Some? && LikeWorld(j, r.value, s.value)
  {
    hide LikeWorld;
    AreaLike(j, u, w, 0);
    var c := match x
      case Local(p) => LocalCell(p)
      case BlockLocal(p) => LocalCell(p)
      case Static(s) => StaticCell(s)
      case Memvar(s) => MemvarCell(s)
      case FieldVar(s) => FieldCell(u.area, s)
      case Undeclared(s) => MemvarCell(s);
    GetLike(j, u, w, c);
    PutCellLike(j, u, w, c, a, b);
  }

  // ----- arrays -----

  lemma ElementLocLike(j: Ids, u: World, w: World, a: Value, b: Value, x: Value, y: Value)
    requires LikeWorld(j, u, w) && Like(j, a, b) && Like(j, x, y)
    ensures var r, s := ElementLoc(u, a, x), ElementLoc(w, b, y); r.Some? ==> s.Some? && LikeLoc(j, r.value, s.value)
  {
    hide LikeCells, LikeTrace;
  }

  lemma ElementLike(j: Ids, u: World, w: World, a: Value, b: Value, x: Value, y: Value)
    requires LikeWorld(j, u, w) && Like(j, a, b) && Like(j, x, y)
    ensures var r, s := Element(u, a, x), Element(w, b, y); r.Some? ==> s.Some? && Like(j, r.value, s.value)
  {
    hide LikeCells, LikeTrace;
  }

  lemma {:induction false} PlainLike(j: Ids, s: seq<Item>, t: seq<Item>)
    requires LikeItems(j, s, t)
    ensures var a, b := PlainValues(s), PlainValues(t); a.Some? ==> b.Some? && LikeValues(j, a.value, b.value)
    decreases |s|
  {
    if s != [] {
      assert LikeItem(j, s[0], t[0]);
      PlainLike(j, s[1..], t[1..]);
    }
  }

  /** New arrays correspond. */
  lemma NewLike(j: Ids, u: World, w: World, s: seq<Value>, t: seq<Value>) returns (k: Ids)
    requires LikeWorld(j, u, w) && LikeValues(j, s, t)
    ensures Grows(j, k)
    ensures var (a, u'), (b, w') := NewArray(u, s), NewArray(w, t); Like(k, a, b) && LikeWorld(k, u', w')
  {
    if j.Same? {
      k := Same;
      SameValues(s, t);
    } else {
      k := Renamed(j.ids[|u.heap| := |w.heap|]);
      CarryCells(j, k, u.cells, w.cells);
      CarryTrace(j, k, u.trace, w.trace);
      CarryValues(j, k, s, t);
      var g, h := u.heap + [s], w.heap + [t];
      forall x | x in k.ids
        ensures x < |g| && k.ids[x] < |h| && LikeValues(k, g[x], h[k.ids[x]])
      {
        if x in j.ids {
          CarryValues(j, k, u.heap[x], w.heap[j.ids[x]]);
        }
      }
    }
  }

  lemma PutElementLike(j: Ids, u: World, w: World, arr: nat, brr: nat, i: int, a: Value, b: Value)
    requires LikeWorld(j, u, w) && Like(j, Array(arr), Array(brr)) && Like(j, a, b) && ValidElem(u, arr, i)
    ensures ValidElem(w, brr, i)
    ensures LikeWorld(j, u.(heap := u.heap[arr := u.heap[arr][i - 1 := a]]),
        w.(heap := w.heap[brr := w.heap[brr][i - 1 := b]]))
  {
    hide LikeCells, LikeTrace;
  }

  // ----- laws of the machine -----

  /** `k` shows that the second outcome is as good as the first. */
  ghost predicate ValueLike(j: Ids, r: Outcome, s: Outcome, k: Ids)
  {
    r.Some? ==> s.Some? && Grows(j, k) && Like(k, r.value.v, s.value.v) && LikeWorld(k, r.value.w, s.value.w)
  }

  ghost predicate WorldLike(j: Ids, r: Option<World>, s: Option<World>, k: Ids)
  {
    r.Some? ==> s.Some? && Grows(j, k) && LikeWorld(k, r.value, s.value)
  }

  ghost predicate OutcomesLike(j: Ids, r: Outcome, s: Outcome)
  {
    exists k :: ValueLike(j, r, s, k)
  }

  /** Operators, calls, messages and alias look-up do not depend on how arrays are numbered. */
  ghost predicate Blind(m: Sem)
  {
    && BlindOperators(m) && BlindCalls(m) && BlindSends(m)
    && forall j, v, u, w :: LikeWorld(j, u, w) && m.alias(v, u).Some? ==> m.alias(v, w) == m.alias(v, u)
  }

  ghost predicate BlindOperators(m: Sem)
  {
    && (forall j, op, a, b, x, y :: Like(j, a, b) && Like(j, x, y) && m.binary(op, a, x).Some? ==>
          m.binary(op, b, y).Some? && Like(j, m.binary(op, a, x).value, m.binary(op, b, y).value))
    && (forall j, op, a, b :: Like(j, a, b) && m.unary(op, a).Some? ==>
          m.unary(op, b).Some? && Like(j, m.unary(op, a).value, m.unary(op, b).value))
  }

  ghost predicate BlindCalls(m: Sem)
  {
    forall j, g, s, t, u, w :: LikeItems(j, s, t) && LikeWorld(j, u, w) ==>
      OutcomesLike(j, m.call(g, s, u), m.call(g, t, w))
  }

  ghost predicate BlindSends(m: Sem)
  {
    forall j, a, b, g, s, t, u, w :: Like(j, a, b) && LikeItems(j, s, t) && LikeWorld(j, u, w) ==>
      OutcomesLike(j, m.send(a, g, s, u), m.send(b, g, t, w))
  }

  /** Nothing is asked of the machine to relate equal worlds. */
  ghost predicate Laws(m: Sem, j: Ids)
  {
    j.Renamed? ==> Blind(m)
  }

  lemma LawsGrow(m: Sem, j: Ids, k: Ids)
    requires Laws(m, j) && Grows(j, k)
    ensures Laws(m, k)
  {
  }

  lemma BinaryLike(m: Sem, j: Ids, op: BinOp, a: Value, b: Value, x: Value, y: Value)
    requires Laws(m, j) && Like(j, a, b) && Like(j, x, y)
    ensures var r, s := m.binary(op, a, x), m.binary(op, b, y); r.Some? ==> s.Some? && Like(j, r.value, s.value)
  {
    hide BlindCalls, BlindSends;
  }

  lemma UnaryLike(m: Sem, j: Ids, op: UnOp, a: Value, b: Value)
    requires Laws(m, j) && Like(j, a, b)
    ensures var r, s := m.unary(op, a), m.unary(op, b); r.Some? ==> s.Some? && Like(j, r.value, s.value)
  {
    hide BlindCalls, BlindSends;
  }

  lemma CallLike(m: Sem, j: Ids, g: U16, s: seq<Item>, t: seq<Item>, u: World, w: World) returns (k: Ids)
    requires Laws(m, j) && LikeItems(j, s, t) && LikeWorld(j, u, w)
    ensures ValueLike(j, DoCall(m, g, s, u), DoCall(m, g, t, w), k)
  {
    if j.Same? {
      SameItems(s, t);
      k := Same;
    } else {
      hide ValueLike, LikeWorld, BlindOperators, BlindSends;
      var u', w' := u.(trace := u.trace + [Called(g, s)]), w.(trace := w.trace + [Called(g, t)]);
      RecordLike(j, Called(g, s), Called(g, t), u, w);
      assert OutcomesLike(j, m.call(g, s, u'), m.call(g, t, w'));
      k :| ValueLike(j, m.call(g, s, u'), m.call(g, t, w'), k);
    }
  }

  lemma SendLike(m: Sem, j: Ids, a: Value, b: Value, g: U16, s: seq<Item>, t: seq<Item>, u: World,
      w: World) returns (k: Ids)
    requires Laws(m, j) && Like(j, a, b) && LikeItems(j, s, t) && LikeWorld(j, u, w)
    ensures ValueLike(j, DoSend(m, a, g, s, u), DoSend(m, b, g, t, w), k)
  {
    if j.Same? {
      SameItems(s, t);
      k := Same;
    } else {
      hide ValueLike, LikeWorld, BlindOperators, BlindCalls;
      var u', w' := u.(trace := u.trace + [Sent(a, g, s)]), w.(trace := w.trace + [Sent(b, g, t)]);
      RecordLike(j, Sent(a, g, s), Sent(b, g, t), u, w);
      assert OutcomesLike(j, m.send(a, g, s, u'), m.send(b, g, t, w'));
      k :| ValueLike(j, m.send(a, g, s, u'), m.send(b, g, t, w'), k);
    }
  }

  lemma RecordLike(j: Ids, a: Event, b: Event, u: World, w: World)
    requires j.Renamed? && LikeEvent(j, a, b) && LikeWorld(j, u, w)
    ensures LikeWorld(j, u.(trace := u.trace + [a]), w.(trace := w.trace + [b]))
  {
    hide LikeCells, LikeHeap, LikeEvent;
  }

  /** One value sent or received. */
  lemma OneLike(j: Ids, a: Value, b: Value)
    requires Like(j, a, b)
    ensures LikeItems(j, [Val(a)], [Val(b)])
  {
  }

  lemma AliasLike(m: Sem, j: Ids, a: Value, b: Value, u: World, w: World)
    requires Laws(m, j) && Like(j, a, b) && LikeWorld(j, u, w)
    ensures var r, s := SelectArea(m, a, u), SelectArea(m, b, w); r.Some? ==> s.Some? && LikeWorld(j, r.value, s.value)
  {
    hide BlindOperators, BlindCalls, BlindSends, LikeWorld;
    forall n: U16
      ensures LikeWorld(j, u.(area := n), w.(area := n))
    {
      AreaLike(j, u, w, n);
    }
    if j.Same? {
      assert u == w by { assert LikeWorld(j, u, w); SameWorld(u, w); }
    }
  }

  lemma SameWorld(u: World, w: World)
    requires LikeWorld(Same, u, w)
    ensures u == w
  {
  }

  // ----- references -----

  lemma DerefLike(m: Sem, j: Ids, a: Loc, b: Loc, u: World, w: World) returns (k: Ids)
    requires Laws(m, j) && LikeLoc(j, a, b) && LikeWorld(j, u, w)
    ensures ValueLike(j, Deref(m, a, u), Deref(m, b, w), k)
  {
    hide LikeWorld, Laws, DoSend;
    k := j;
    GrowsItself(j);
    match a
    case CellLoc(c) => GetLike(j, u, w, c);
    case ElemLoc(x, i) => if ValidElem(u, x, i) { ElementAtLike(j, u, w, x, b.arr, i); }
    case MsgLoc(o, s) => k := SendLike(m, j, o, b.obj, m.getter(s), [], [], u, w);
  }

  lemma ElementAtLike(j: Ids, u: World, w: World, x: nat, y: nat, i: int)
    requires LikeWorld(j, u, w) && Like(j, Array(x), Array(y)) && ValidElem(u, x, i)
    ensures ValidElem(w, y, i) && Like(j, u.heap[x][i - 1], w.heap[y][i - 1])
  {
    hide LikeCells, LikeTrace;
  }

  lemma StoreLike(m: Sem, j: Ids, a: Loc, b: Loc, x: Value, y: Value, u: World, w: World) returns (k: Ids)
    requires Laws(m, j) && LikeLoc(j, a, b) && Like(j, x, y) && LikeWorld(j, u, w)
    ensures WorldLike(j, Store(m, a, x, u), Store(m, b, y, w), k)
  {
    hide LikeWorld, Laws, DoSend;
    k := j;
    GrowsItself(j);
    match a
    case CellLoc(c) => PutCellLike(j, u, w, c, x, y);
    case ElemLoc(arr, i) => if ValidElem(u, arr, i) { PutElementLike(j, u, w, arr, b.arr, i, x, y); }
    case MsgLoc(o, s) =>
      OneLike(j, x, y);
      k := SendLike(m, j, o, b.obj, s, [Val(x)], [Val(y)], u, w);
  }

  lemma FollowedLike(m: Sem, j: Ids, a: Item, b: Item, u: World, w: World) returns (k: Ids)
    requires Laws(m, j) && LikeItem(j, a, b) && LikeWorld(j, u, w)
    ensures ValueLike(j, Followed(m, a, u), Followed(m, b, w), k)
  {
    hide LikeWorld, Laws, Deref;
    k := j;
    GrowsItself(j);
    if a.RefTo? {
      k := DerefLike(m, j, a.loc, b.loc, u, w);
    }
  }

  lemma UpdateLike(m: Sem, j: Ids, op: ArithOp, a: Loc, b: Loc, x: Value, y: Value, u: World, w: World) returns (k: Ids)
    requires Laws(m, j) && LikeLoc(j, a, b) && Like(j, x, y) && LikeWorld(j, u, w)
    ensures ValueLike(j, Update(m, op, a, x, u), Update(m, op, b, y, w), k)
  {
    hide LikeWorld, LikeLoc, Like, Grows, Laws, Deref, Store;
    k := DerefLike(m, j, a, b, u, w);
    var r, s := Deref(m, a, u), Deref(m, b, w);
    if r.Some? {
      Carry(j, k, x, y);
      CarryLoc(j, k, a, b);
      k := ChangeLike(m, j, k, a, b, r.value, s.value, m.binary(Arith(op), r.value.v, x), m.binary(Arith(op),
          s.value.v, y)) by {
        LawsGrow(m, j, k);
        BinaryLike(m, k, Arith(op), r.value.v, s.value.v, x, y);
      }
    }
  }

  lemma StepLike(m: Sem, j: Ids, inc: bool, a: Loc, b: Loc, u: World, w: World) returns (k: Ids)
    requires Laws(m, j) && LikeLoc(j, a, b) && LikeWorld(j, u, w)
    ensures ValueLike(j, StepLoc(m, inc, a, u), StepLoc(m, inc, b, w), k)
  {
    hide LikeWorld, LikeLoc, Like, Grows, Laws, Deref, Store;
    k := DerefLike(m, j, a, b, u, w);
    var r, s := Deref(m, a, u), Deref(m, b, w);
    if r.Some? {
      CarryLoc(j, k, a, b);
      k := ChangeLike(m, j, k, a, b, r.value, s.value, m.unary(StepOp(inc), r.value.v), m.unary(StepOp(inc),
          s.value.v)) by {
        LawsGrow(m, j, k);
        UnaryLike(m, k, StepOp(inc), r.value.v, s.value.v);
      }
    }
  }

  function Changed(m: Sem, loc: Loc, v: Option<Value>, w: World): Outcome
  {
    var x :- v;
    var w' :- Store(m, loc, x, w);
    Some(Result(x, w'))
  }

  /** The write of an update, after the read. */
  lemma ChangeLike(m: Sem, j: Ids, k: Ids, a: Loc, b: Loc, r: Result, s: Result, x: Option<Value>,
      y: Option<Value>) returns (l: Ids)
    requires Laws(m, k) && Grows(j, k) && LikeLoc(k, a, b) && LikeWorld(k, r.w, s.w)
    requires x.Some? ==> y.Some? && Like(k, x.value, y.value)
    ensures ValueLike(j, Changed(m, a, x, r.w), Changed(m, b, y, s.w), l)
  {
    hide LikeWorld, LikeLoc, Like, Grows, Laws, Store;
    l := k;
    if x.Some? {
      l := StoreLike(m, k, a, b, x.value, y.value, r.w, s.w);
      if Store(m, a, x.value, r.w).Some? {
        Carry(k, l, x.value, y.value);
        GrowsThen(j, k, l);
      }
    }
  }

  // ----- one correspondence after another -----

  /** The second world as it corresponds to itself. */
  function Image(j: Ids): Ids
  {
    if j.Same? then Same else Renamed(map y | y in j.ids.Values :: y)
  }

  function Compose(j: Ids, k: Ids): Ids
  {
    if j.Same? || k.Same? then Same
    else Renamed(map x | x in j.ids && j.ids[x] in k.ids :: k.ids[j.ids[x]])
  }

  lemma InImage(j: Ids, a: Value, b: Value)
    requires Like(j, a, b)
    ensures Like(Image(j), b, b)
  {
  }

  lemma ItemInImage(j: Ids, a: Item, b: Item)
    requires LikeItem(j, a, b)
    ensures LikeItem(Image(j), b, b)
  {
    hide Image, Like;
    match (a, b)
    case (Val(v), Val(x)) => InImage(j, v, x);
    case (RefTo(ElemLoc(x, _)), RefTo(ElemLoc(y, _))) => InImage(j, Array(x), Array(y));
    case (RefTo(MsgLoc(o, _)), RefTo(MsgLoc(p, _))) => InImage(j, o, p);
    case _ =>
  }

  lemma ItemsInImage(j: Ids, s: seq<Item>, t: seq<Item>)
    requires LikeItems(j, s, t)
    ensures LikeItems(Image(j), t, t)
  {
    hide Image, LikeItem;
    forall i | 0 <= i < |t|
      ensures LikeItem(Image(j), t[i], t[i])
    {
      ItemInImage(j, s[i], t[i]);
    }
  }

  lemma ValuesInImage(j: Ids, s: seq<Value>, t: seq<Value>)
    requires LikeValues(j, s, t)
    ensures LikeValues(Image(j), t, t)
  {
    hide Image, Like;
    forall i | 0 <= i < |t|
      ensures Like(Image(j), t[i], t[i])
    {
      InImage(j, s[i], t[i]);
    }
  }

  lemma EventInImage(j: Ids, a: Event, b: Event)
    requires LikeEvent(j, a, b)
    ensures LikeEvent(Image(j), b, b)
  {
    hide Image, Like, LikeItems;
    match (a, b)
    case (Called(_, s), Called(_, t)) => ItemsInImage(j, s, t);
    case (Sent(o, _, s), Sent(p, _, t)) =>
      InImage(j, o, p);
      ItemsInImage(j, s, t);
  }

  lemma WorldInImage(j: Ids, u: World, w: World)
    requires LikeWorld(j, u, w)
    ensures LikeWorld(Image(j), w, w) && Image(j).Renamed? == j.Renamed?
  {
    if j.Renamed? {
      assert LikeCells(Image(j), w.cells, w.cells) by {
        forall x | x in w.cells
          ensures Like(Image(j), w.cells[x], w.cells[x])
        {
          InImage(j, u.cells[x], w.cells[x]);
        }
      }
      assert LikeHeap(Image(j), w.heap, w.heap) by {
        forall y | y in Image(j).ids
          ensures y < |w.heap| && LikeValues(Image(j), w.heap[y], w.heap[y])
        {
          var x :| x in j.ids && j.ids[x] == y;
          ValuesInImage(j, u.heap[x], w.heap[y]);
        }
      }
      assert LikeTrace(Image(j), w.trace, w.trace) by {
        hide Image, LikeEvent;
        forall i | 0 <= i < |w.trace|
          ensures LikeEvent(Image(j), w.trace[i], w.trace[i])
        {
          EventInImage(j, u.trace[i], w.trace[i]);
        }
      }
    }
  }

  lemma LikeThen(j: Ids, k: Ids, a: Value, b: Value, c: Value)
    requires j.Renamed? == k.Renamed? && Like(j, a, b) && Like(k, b, c)
    ensures Like(Compose(j, k), a, c)
  {
  }

  lemma ItemThen(j: Ids, k: Ids, a: Item, b: Item, c: Item)
    requires j.Renamed? == k.Renamed? && LikeItem(j, a, b) && LikeItem(k, b, c)
    ensures LikeItem(Compose(j, k), a, c)
  {
    hide Compose, Like;
    match (a, b, c)
    case (Val(v), Val(x), Val(y)) => LikeThen(j, k, v, x, y);
    case (RefTo(ElemLoc(x, _)), RefTo(ElemLoc(y, _)), RefTo(ElemLoc(z, _))) => LikeThen(j, k, Array(x), Array(y),
        Array(z));
    case (RefTo(MsgLoc(x, _)), RefTo(MsgLoc(y, _)), RefTo(MsgLoc(z, _))) => LikeThen(j, k, x, y, z);
    case _ =>
  }

  lemma ItemsThen(j: Ids, k: Ids, a: seq<Item>, b: seq<Item>, c: seq<Item>)
    requires j.Renamed? == k.Renamed? && LikeItems(j, a, b) && LikeItems(k, b, c)
    ensures LikeItems(Compose(j, k), a, c)
  {
    hide Compose, LikeItem;
    forall i | 0 <= i < |a|
      ensures LikeItem(Compose(j, k), a[i], c[i])
    {
      ItemThen(j, k, a[i], b[i], c[i]);
    }
  }

  lemma ValuesThen(j: Ids, k: Ids, a: seq<Value>, b: seq<Value>, c: seq<Value>)
    requires j.Renamed? == k.Renamed? && LikeValues(j, a, b) && LikeValues(k, b, c)
    ensures LikeValues(Compose(j, k), a, c)
  {
    hide Compose, Like;
    forall i | 0 <= i < |a|
      ensures Like(Compose(j, k), a[i], c[i])
    {
      LikeThen(j, k, a[i], b[i], c[i]);
    }
  }

  lemma EventThen(j: Ids, k: Ids, a: Event, b: Event, c: Event)
    requires j.Renamed? == k.Renamed? && LikeEvent(j, a, b) && LikeEvent(k, b, c)
    ensures LikeEvent(Compose(j, k), a, c)
  {
    hide Compose, Like, LikeItems;
    match (a, b, c)
    case (Called(_, s), Called(_, t), Called(_, x)) => ItemsThen(j, k, s, t, x);
    case (Sent(o, _, s), Sent(p, _, t), Sent(q, _, x)) =>
      LikeThen(j, k, o, p, q);
      ItemsThen(j, k, s, t, x);
  }

  lemma HeapThen(j: Ids, k: Ids, g: seq<seq<Value>>, h: seq<seq<Value>>, i: seq<seq<Value>>)
    requires j.Renamed? && k.Renamed? && LikeHeap(j, g, h) && LikeHeap(k, h, i)
    ensures LikeHeap(Compose(j, k), g, i)
  {
    var c := Compose(j, k);
    forall x | x in c.ids
      ensures x < |g| && c.ids[x] < |i| && LikeValues(c, g[x], i[c.ids[x]])
    {
      ValuesThen(j, k, g[x], h[j.ids[x]], i[c.ids[x]]);
    }
  }

  lemma WorldThen(j: Ids, k: Ids, u: World, v: World, w: World)
    requires j.Renamed? == k.Renamed? && LikeWorld(j, u, v) && LikeWorld(k, v, w)
    ensures LikeWorld(Compose(j, k), u, w)
  {
    hide Compose, Like, LikeEvent, LikeHeap;
    if j.Renamed? {
      forall x | x in u.cells
        ensures Like(Compose(j, k), u.cells[x], w.cells[x])
      {
        LikeThen(j, k, u.cells[x], v.cells[x], w.cells[x]);
      }
      HeapThen(j, k, u.heap, v.heap, w.heap);
      forall i | 0 <= i < |u.trace|
        ensures LikeEvent(Compose(j, k), u.trace[i], w.trace[i])
      {
        EventThen(j, k, u.trace[i], v.trace[i], w.trace[i]);
      }
      ComposeKind(j, k);
    } else {
      ComposeKind(j, k);
    }
  }

  lemma ComposeKind(j: Ids, k: Ids)
    requires j.Renamed? == k.Renamed?
    ensures Compose(j, k).Renamed? == j.Renamed?
  {
  }

  /** What grew out of a correspondence and out of its image composes to what grew out of it. */
  lemma GrowsComposed(j: Ids, k: Ids, l: Ids)
    requires Grows(j, k) && Grows(Image(j), l)
    ensures Grows(j, Compose(k, l))
  {
    if j.Renamed? {
      forall x | x in j.ids
        ensures x in Compose(k, l).ids && Compose(k, l).ids[x] == j.ids[x]
      {
        assert j.ids[x] in j.ids.Values;
        assert j.ids[x] in Image(j).ids;
      }
    }
  }

  // ----- arrays that nothing refers to -----

  lemma MoreGarbage(j: Ids, u: World, w: World, row: seq<Value>)
    requires j.Renamed? && LikeWorld(j, u, w)
    ensures LikeWorld(j, u.(heap := u.heap + [row]), w)
  {
    hide LikeCells, LikeTrace;
  }

  /** Every array number in use belongs to an array. */
  ghost predicate Closed(w: World)
  {
    LikeWorld(Identity(w), w, w)
  }

  function Itself(n: nat): (r: map<nat, nat>)
    ensures forall i: nat :: i in r <==> i < n
    ensures forall i: nat :: i in r ==> r[i] == i
  {
    if n == 0 then map[] else Itself(n - 1)[n - 1 := n - 1]
  }

  function Identity(w: World): Ids
  {
    Renamed(Itself(|w.heap|))
  }

  predicate Known(n: nat, v: Value)
  {
    v.Array? ==> v.id < n
  }

  predicate KnownItem(n: nat, it: Item)
  {
    match it
    case Val(v) => Known(n, v)
    case RefTo(CellLoc(_)) => true
    case RefTo(ElemLoc(arr, _)) => arr < n
    case RefTo(MsgLoc(o, _)) => Known(n, o)
  }

  predicate KnownEvent(n: nat, e: Event)
  {
    match e
    case Called(_, items) => forall i :: 0 <= i < |items| ==> KnownItem(n, items[i])
    case Sent(o, _, items) => Known(n, o) && forall i :: 0 <= i < |items| ==> KnownItem(n, items[i])
  }

  /** That is: every array in a variable, in an array or on record is one of the heap. */
  lemma ClosedMeans(w: World)
    ensures Closed(w) <==>
      && (forall c :: c in w.cells ==> Known(|w.heap|, w.cells[c]))
      && (forall x, i :: 0 <= x < |w.heap| && 0 <= i < |w.heap[x]| ==> Known(|w.heap|, w.heap[x][i]))
      && (forall i :: 0 <= i < |w.trace| ==> KnownEvent(|w.heap|, w.trace[i]))
  {
    hide LikeEvent, KnownEvent;
    var j := Identity(w);
    forall i | 0 <= i < |w.trace|
      ensures LikeEvent(j, w.trace[i], w.trace[i]) <==> KnownEvent(|w.heap|, w.trace[i])
    {
      EventToItself(|w.heap|, j, w.trace[i]);
    }
    forall v
      ensures Like(j, v, v) <==> Known(|w.heap|, v)
    {
    }
    assert LikeHeap(j, w.heap, w.heap) <==> forall x :: 0 <= x < |w.heap| ==> LikeValues(j, w.heap[x], w.heap[x]);
    assert forall x :: 0 <= x < |w.heap| ==>
      (LikeValues(j, w.heap[x], w.heap[x]) <==> forall i :: 0 <= i < |w.heap[x]| ==> Known(|w.heap|, w.heap[x][i]));
  }

  lemma EventToItself(n: nat, j: Ids, e: Event)
    requires j == Renamed(Itself(n))
    ensures LikeEvent(j, e, e) <==> KnownEvent(n, e)
  {
    hide LikeItem, KnownItem, Itself;
    forall it
      ensures LikeItem(j, it, it) <==> KnownItem(n, it)
    {
      ItemToItself(n, j, it);
    }
  }

  lemma ItemToItself(n: nat, j: Ids, it: Item)
    requires j == Renamed(Itself(n))
    ensures LikeItem(j, it, it) <==> KnownItem(n, it)
  {
  }
}
