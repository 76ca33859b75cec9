/** hb_bitAnd, hb_bitOr and hb_bitXor on 64-bit integers, and the folding of calls with constant
    arguments. */
module BitFold {
  import opened Wrappers
  import opened Bytes
  import opened Runtime
  import opened Expr
  import opened Forms

  // ----- the operations -----

  predicate OnBits(op: BitOp, x: bool, y: bool)
  {
    match op
    case BitAnd => x && y
    case BitOr => x || y
    case BitXor => x != y
  }

  /** Bit `k` in two's complement, the sign extended without end. */
  predicate Bit(n: int, k: nat)
    decreases k
  {
    if k == 0 then n % 2 == 1 else Bit(n / 2, k - 1)
  }

  predicate InWidth(n: int, width: nat)
    requires width >= 1
  {
    0 - Pow2(width - 1) <= n < Pow2(width - 1)
  }

  /** All bits at once, for numbers of `width` bits; the result is one of them. */
  function Bitwise(op: BitOp, width: nat, a: int, b: int): (r: int)
    requires width >= 1 && InWidth(a, width) && InWidth(b, width)
    ensures InWidth(r, width)
    decreases width
  {
    if width == 1 then (if OnBits(op, a == -1, b == -1) then -1 else 0)
    else (if OnBits(op, a % 2 == 1, b % 2 == 1) then 1 else 0) + 2 * Bitwise(op, width - 1, a / 2, b / 2)
  }

  lemma {:induction false} SignBits(k: nat)
    ensures Bit(-1, k) && !Bit(0, k)
  {
    if k > 0 {
      SignBits(k - 1);
    }
  }

  /** Every bit of the result is the operation on the bits of the operands. */
  lemma {:induction false} BitwiseBits(op: BitOp, width: nat, a: int, b: int, k: nat)
    requires width >= 1 && InWidth(a, width) && InWidth(b, width)
    ensures Bit(Bitwise(op, width, a, b), k) <==> OnBits(op, Bit(a, k), Bit(b, k))
    decreases width
  {
    if width == 1 {
      SignBits(k);
    } else if k > 0 {
      BitwiseBits(op, width - 1, a / 2, b / 2, k - 1);
    }
  }

  lemma Pow2Four(n: nat)
    ensures Pow2(n + 4) == 16 * Pow2(n)
  {
    assert Pow2(n + 4) == 2 * Pow2(n + 3);
    assert Pow2(n + 2) == 2 * Pow2(n + 1);
  }

  lemma Width64()
    ensures Pow2(63) == 0x8000_0000_0000_0000
  {
    assert Pow2(3) == 8;
    Sixteen(3);
    Sixteen(19);
    Sixteen(35);
    Pow2Four(51);
    Pow2Four(55);
    Pow2Four(59);
  }

  lemma Sixteen(n: nat)
    ensures Pow2(n + 16) == 0x10000 * Pow2(n)
  {
    Pow2Four(n);
    Pow2Four(n + 4);
    Pow2Four(n + 8);
    Pow2Four(n + 12);
  }

  /** The machine's operation on two integers. */
  function Apply(op: BitOp, a: S64, b: S64): S64
  {
    Width64();
    Bitwise(op, 64, a, b)
  }

  // ----- the call -----

  predicate IsInt(it: Item)
  {
    it.Val? && it.v.Num? && -0x8000_0000_0000_0000 <= it.v.n < 0x8000_0000_0000_0000
  }

  predicate AllInts(items: seq<Item>)
  {
    forall i :: 0 <= i < |items| ==> IsInt(items[i])
  }

  /** How many of the arguments have bit `k` set. */
  function SetAmong(items: seq<Item>, k: nat): (ones: nat)
    requires AllInts(items)
    ensures ones <= |items|
    decreases items
  {
    if items == [] then 0 else (if Bit(items[0].v.n, k) then 1 else 0) + SetAmong(items[1..], k)
  }

  /** What the operation makes of `n` bits of which `ones` are set. */
  predicate Together(op: BitOp, ones: nat, n: nat)
  {
    match op
    case BitAnd => ones == n
    case BitOr => ones > 0
    case BitXor => ones % 2 == 1
  }

  /** A number each bit of which is the conjunction, the disjunction or the parity of that bit of all
      arguments, and nothing else done. */
  ghost predicate GivesBits(op: BitOp, items: seq<Item>, w: World, r: Outcome)
    requires AllInts(items)
  {
    && r.Some? && r.value.w == w && IsInt(Val(r.value.v))
    && forall k: nat :: Bit(r.value.v.n, k) <==> Together(op, SetAmong(items, k), |items|)
  }

  /** What calling one of the functions with two or more integers has to give. */
  ghost predicate BitLaws(m: Sem, f: Env)
  {
    forall g: U16, items: seq<Item>, w: World :: f.bits(g).Some? && |items| >= 2 && AllInts(items) ==>
      GivesBits(f.bits(g).value, items, w, DoCall(m, g, items, w))
  }

  /** How the functions compute it: the arguments are combined from the left. */
  function Combined(op: BitOp, acc: S64, items: seq<Item>): S64
    requires AllInts(items)
    decreases items
  {
    if items == [] then acc else Combined(op, Apply(op, acc, items[0].v.n), items[1..])
  }

  lemma ApplyBits(op: BitOp, a: S64, b: S64, k: nat)
    ensures Bit(Apply(op, a, b), k) <==> OnBits(op, Bit(a, k), Bit(b, k))
  {
    hide Bit, Bitwise;
    Width64();
    BitwiseBits(op, 64, a, b, k);
  }

  lemma {:induction false} CombinedBits(op: BitOp, acc: S64, items: seq<Item>, k: nat)
    requires AllInts(items)
    ensures Bit(Combined(op, acc, items), k) <==>
      Together(op, (if Bit(acc, k) then 1 else 0) + SetAmong(items, k), 1 + |items|)
    decreases items
  {
    hide Bit, Apply;
    if items != [] {
      ApplyBits(op, acc, items[0].v.n, k);
      CombinedBits(op, Apply(op, acc, items[0].v.n), items[1..], k);
    }
  }

  /** And that is what they have to give. */
  lemma CombinedGives(op: BitOp, items: seq<Item>, w: World)
    requires |items| >= 2 && AllInts(items)
    ensures GivesBits(op, items, w, Some(Result(Num(Combined(op, items[0].v.n, items[1..])), w)))
  {
    hide Bit, Together, Combined, SetAmong;
    forall k: nat
      ensures Bit(Combined(op, items[0].v.n, items[1..]), k) <==> Together(op, SetAmong(items, k), |items|)
    {
      CombinedBits(op, items[0].v.n, items[1..], k);
      FirstSet(items, k);
    }
  }

  lemma FirstSet(items: seq<Item>, k: nat)
    requires AllInts(items) && items != []
    ensures SetAmong(items, k) == (if Bit(items[0].v.n, k) then 1 else 0) + SetAmong(items[1..], k)
  {
  }

  /** A number is known by its bits. */
  lemma {:induction false} BitsTell(a: int, b: int, width: nat)
    requires width >= 1 && InWidth(a, width) && InWidth(b, width)
    requires forall k: nat :: Bit(a, k) == Bit(b, k)
    ensures a == b
    decreases width
  {
    assert Bit(a, 0) == Bit(b, 0);
    if width > 1 {
      forall k: nat
        ensures Bit(a / 2, k) == Bit(b / 2, k)
      {
        assert Bit(a, k + 1) == Bit(b, k + 1);
      }
      BitsTell(a / 2, b / 2, width - 1);
    }
  }

  // ----- folding -----

  /** The loop of the compiler, on the arguments after the first. */
  function FoldLeft(op: BitOp, acc: S64, es: Exprs): Option<S64>
    decreases es
  {
    if es.NoMore? then Some(acc)
    else if es.head.ENumber? then FoldLeft(op, Apply(op, acc, es.head.n), es.tail)
    else None
  }

  /** What a call with these arguments is replaced by, if it is. */
  function Folded(op: BitOp, es: Exprs): Option<S64>
  {
    if 2 <= Len(es) <= MAX_ARGS && es.head.ENumber? then FoldLeft(op, es.head.n, es.tail) else None
  }

  /** The accumulating loop over the linked arguments; it stops at the first that is no number. */
  method FoldBits(op: BitOp, es: Exprs) returns (r: Option<S64>)
    ensures r == Folded(op, es)
  {
    var count := Len(es);
    if !(2 <= count <= MAX_ARGS) {
      return None;
    }
    assert Len(es.tail) >= 1;
    if !(es.head.ENumber? && es.tail.head.ENumber?) {
      return None;
    }
    var at, result := es, es.head.n;
    count := count - 1;
    while count != 0
      invariant at.More? && Len(at) == count + 1
      invariant FoldLeft(op, result, at.tail) == FoldLeft(op, es.head.n, es.tail)
      decreases count
    {
      at := at.tail;
      if !at.head.ENumber? {
        return None;
      }
      result := Apply(op, result, at.head.n);
      count := count - 1;
    }
    return Some(result);
  }

  predicate AllNumbers(es: Exprs)
  {
    es.NoMore? || (es.head.ENumber? && AllNumbers(es.tail))
  }

  lemma {:induction false} FoldLeftExactly(op: BitOp, acc: S64, es: Exprs)
    ensures FoldLeft(op, acc, es).Some? <==> AllNumbers(es)
    decreases es
  {
    if es.More? && es.head.ENumber? {
      FoldLeftExactly(op, Apply(op, acc, es.head.n), es.tail);
    }
  }

  /** A call is folded if and only if it has two or more arguments and all are numbers. */
  lemma FoldsExactly(op: BitOp, es: Exprs)
    requires Len(es) <= MAX_ARGS
    ensures Folded(op, es).Some? <==> Len(es) >= 2 && AllNumbers(es)
  {
    if Len(es) >= 2 && es.head.ENumber? {
      FoldLeftExactly(op, es.head.n, es.tail);
    }
  }

  // ----- what the folded number is -----

  /** Bit `k` is the lowest bit once the `k` below it are shifted out. */
  lemma {:induction false} BitOfQuotient(n: int, k: nat)
    ensures Pow2(k) > 0 && (Bit(n, k) <==> n / Pow2(k) % 2 == 1)
    decreases k
  {
    if k > 0 {
      BitOfQuotient(n / 2, k - 1);
      Halves(n, Pow2(k - 1));
    }
  }

  lemma Halves(n: int, m: int)
    requires m >= 1
    ensures n / 2 / m == n / (2 * m)
  {
    var q, r := n / 2, n % 2;
    var q', r' := q / m, q % m;
    assert n == (2 * m) * q' + (2 * r' + r);
    DivModUnique(n, 2 * m, q', 2 * r' + r);
  }

  function SetIn(es: Exprs, k: nat): (ones: nat)
    requires AllNumbers(es)
    ensures ones <= Len(es)
  {
    if es.NoMore? then 0 else (if Bit(es.head.n, k) then 1 else 0) + SetIn(es.tail, k)
  }

  lemma {:induction false} FoldLeftBits(op: BitOp, acc: S64, es: Exprs, k: nat)
    requires AllNumbers(es)
    ensures FoldLeft(op, acc, es).Some?
    ensures Bit(FoldLeft(op, acc, es).value, k) <==>
      Together(op, (if Bit(acc, k) then 1 else 0) + SetIn(es, k), 1 + Len(es))
    decreases es
  {
    hide Bit, Apply;
    if es.More? {
      ApplyBits(op, acc, es.head.n, k);
      FoldLeftBits(op, Apply(op, acc, es.head.n), es.tail, k);
    }
  }

  /** Bit by bit, the constant a call becomes is the conjunction, the disjunction or the parity of all
      its arguments. */
  lemma FoldedBits(op: BitOp, es: Exprs, k: nat)
    requires 2 <= Len(es) <= MAX_ARGS && AllNumbers(es)
    ensures Folded(op, es).Some?
    ensures Bit(Folded(op, es).value, k) <==> Together(op, SetIn(es, k), Len(es))
  {
    hide Bit, FoldLeft;
    FoldLeftBits(op, es.head.n, es.tail, k);
  }

  lemma {:induction false} NoBits(op: BitOp, width: nat)
    requires width >= 1
    ensures InWidth(0, width) && Bitwise(op, width, 0, 0) == 0
  {
    if width > 1 {
      NoBits(op, width - 1);
    }
  }

  lemma TwelveAndTen(op: BitOp, width: nat)
    requires width >= 6
    ensures InWidth(12, width) && InWidth(10, width)
    ensures Bitwise(op, width, 12, 10) == match op case BitAnd => 8 case BitOr => 14 case BitXor => 6
  {
    NoBits(op, width - 4);
    assert Bitwise(op, width - 3, 1, 1) == if op.BitXor? then 0 else 1;
    assert Bitwise(op, width - 2, 3, 2) == match op case BitAnd => 2 case BitOr => 3 case BitXor => 1;
    assert Bitwise(op, width - 1, 6, 5) == match op case BitAnd => 4 case BitOr => 7 case BitXor => 3;
  }

  /** `hb_bitAnd( 12, 10 )` is folded to 8, `hb_bitOr( 12, 10 )` to 14, `hb_bitXor( 12, 10 )` to 6. */
  lemma FoldExamples()
    ensures var es := More(ENumber(12), More(ENumber(10), NoMore));
      Folded(BitAnd, es) == Some(8) && Folded(BitOr, es) == Some(14) && Folded(BitXor, es) == Some(6)
  {
    hide Bitwise;
    TwelveAndTen(BitAnd, 64);
    TwelveAndTen(BitOr, 64);
    TwelveAndTen(BitXor, 64);
    Width64();
  }

  lemma NumberArg(m: Sem, f: Env, n: S64, w: World)
    ensures EvalArg(m, f, ENumber(n), w) == Some(Pushed(Val(Num(n)), w))
    ensures Eval(m, f, ENumber(n), w) == Some(Result(Num(n), w)) && Effect(m, f, ENumber(n), w) == Some(w)
  {
  }

  /** The arguments are pushed as they stand. */
  lemma {:induction false} NumberArgs(m: Sem, f: Env, es: Exprs, w: World, k: nat)
    requires AllNumbers(es)
    ensures var r := EvalArgs(m, f, es, w);
      && r.Some? && r.value.w == w && |r.value.items| == Len(es) && AllInts(r.value.items)
      && SetAmong(r.value.items, k) == SetIn(es, k)
    decreases es
  {
    hide Eval, EvalArg, Bit;
    if es.More? {
      NumberArg(m, f, es.head.n, w);
      NumberArgs(m, f, es.tail, w, k);
      var rest := EvalArgs(m, f, es.tail, w).value.items;
      assert ([Val(Num(es.head.n))] + rest)[1..] == rest;
    }
  }

  /** The number a call with constant arguments gives is the constant it becomes. */
  lemma CallGivesFold(m: Sem, f: Env, op: BitOp, es: Exprs, w: World, r: Outcome)
    requires 2 <= Len(es) <= MAX_ARGS && AllNumbers(es) && EvalArgs(m, f, es, w).Some?
    requires var items := EvalArgs(m, f, es, w).value.items; AllInts(items) && GivesBits(op, items, w, r)
    ensures Folded(op, es).Some? && r == Some(Result(Num(Folded(op, es).value), w))
  {
    hide Bit, EvalArgs, Together, Folded;
    NumberArgs(m, f, es, w, 0);
    FoldedBits(op, es, 0);
    var n, items := r.value.v.n, EvalArgs(m, f, es, w).value.items;
    forall k: nat
      ensures Bit(n, k) == Bit(Folded(op, es).value, k)
    {
      NumberArgs(m, f, es, w, k);
      FoldedBits(op, es, k);
      assert Bit(n, k) <==> Together(op, SetAmong(items, k), |items|);
    }
    Width64();
    BitsTell(n, Folded(op, es).value, 64);
  }

  /** The folded literal has the value of the call it replaces, and the call had no effect. */
  lemma FoldIsCall(m: Sem, f: Env, g: U16, es: Exprs, w: World)
    requires BitLaws(m, f) && f.bits(g).Some? && Folded(f.bits(g).value, es).Some?
    ensures var n := Folded(f.bits(g).value, es).value;
      && Eval(m, f, ECall(g, es), w) == Eval(m, f, ENumber(n), w)
      && Effect(m, f, ECall(g, es), w) == Effect(m, f, ENumber(n), w)
      && EvalArg(m, f, ECall(g, es), w) == EvalArg(m, f, ENumber(n), w)
  {
    hide Eval, Effect, EvalArg, DoCall, Folded, EvalArgs, GivesBits;
    var op := f.bits(g).value;
    FoldsOnly(op, es);
    NumberArg(m, f, Folded(op, es).value, w);
    NumberArgs(m, f, es, w, 0);
    var items := EvalArgs(m, f, es, w).value.items;
    assert GivesBits(op, items, w, DoCall(m, g, items, w));
    CallGivesFold(m, f, op, es, w, DoCall(m, g, items, w));
    ListForm(m, f, ECall(g, es), w);
    ArgForm(m, f, ECall(g, es), w);
  }

  lemma FoldsOnly(op: BitOp, es: Exprs)
    requires Folded(op, es).Some?
    ensures 2 <= Len(es) <= MAX_ARGS && AllNumbers(es)
  {
    FoldsExactly(op, es);
  }
}
