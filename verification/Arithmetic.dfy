/** Addition and subtraction as the virtual machine does them (src/vm/hvm.c): 64-bit integers that
    turn into doubles when they overflow, doubles and dates. They meet the laws that the special
    instructions rely on. Doubles are exact here. */
module Arithmetic {
  import opened Wrappers
  import opened Runtime
  import opened Correct

  const MIN64 := -0x8000_0000_0000_0000
  const MAX64 := 0x7FFF_FFFF_FFFF_FFFF

  predicate IsInt64(n: int)
  {
    MIN64 <= n <= MAX64
  }

  /** Two's complement of the low 64 bits. */
  function Wrap64(n: int): int
  {
    (n - MIN64) % 0x1_0000_0000_0000_0000 + MIN64
  }

  /** The overflow test looks at the wrapped result and the sign of the second operand. */
  function AddInts(a: int, b: int): Value
  {
    var r := Wrap64(a + b);
    if (if b >= 0 then r >= a else r < a) then Num(r) else Dbl(a as real + b as real)
  }

  function SubtractInts(a: int, b: int): Value
  {
    var r := Wrap64(a - b);
    if (if b <= 0 then r >= a else r < a) then Num(r) else Dbl(a as real - b as real)
  }

  lemma OverflowDetected(a: int, b: int)
    requires IsInt64(a) && IsInt64(b)
    ensures AddInts(a, b) == if IsInt64(a + b) then Num(a + b) else Dbl((a + b) as real)
    ensures SubtractInts(a, b) == if IsInt64(a - b) then Num(a - b) else Dbl((a - b) as real)
  {
  }

  function Plus(a: Value, b: Value): Option<Value>
  {
    match (a, b)
    case (Num(x), Num(y)) => if IsInt64(x) && IsInt64(y) then Some(AddInts(x, y)) else None
    case (Num(x), Dbl(y)) => if IsInt64(x) then Some(Dbl(x as real + y)) else None
    case (Dbl(x), Num(y)) => if IsInt64(y) then Some(Dbl(x + y as real)) else None
    case (Dbl(x), Dbl(y)) => Some(Dbl(x + y))
    case (Date(x), Date(y)) => Some(Date(x + y))
    case (Date(x), Num(y)) => if IsInt64(y) then Some(Date(x + y)) else None
    case (Date(x), Dbl(y)) => Some(Date(x + Truncate(y)))
    case (Num(x), Date(y)) => if IsInt64(x) then Some(Date(x + y)) else None
    case (Dbl(x), Date(y)) => Some(Date(Truncate(x) + y))
    case _ => None
  }

  function Minus(a: Value, b: Value): Option<Value>
  {
    match (a, b)
    case (Num(x), Num(y)) => if IsInt64(x) && IsInt64(y) then Some(SubtractInts(x, y)) else None
    case (Num(x), Dbl(y)) => if IsInt64(x) then Some(Dbl(x as real - y)) else None
    case (Dbl(x), Num(y)) => if IsInt64(y) then Some(Dbl(x - y as real)) else None
    case (Dbl(x), Dbl(y)) => Some(Dbl(x - y))
    case (Date(x), Date(y)) => Some(Num(x - y))
    case (Date(x), Num(y)) => if IsInt64(y) then Some(Date(x - y)) else None
    case (Date(x), Dbl(y)) => Some(Date(x - Truncate(y)))
    case _ => None
  }

  function Step(inc: bool, a: Value): Option<Value>
  {
    var d := if inc then 1 else -1;
    match a
    case Num(x) =>
      if !IsInt64(x) then None
      else if (if inc then x < MAX64 else x > MIN64) then Some(Num(x + d))
      else Some(Dbl(x as real + d as real))
    case Dbl(x) => Some(Dbl(x + d as real))
    case Date(x) => Some(Date(x + d))
    case _ => None
  }

  function AddLiteral(a: Value, k: int): Option<Value>
  {
    match a
    case Num(x) => if IsInt64(x) && IsInt64(k) then Some(AddInts(x, k)) else None
    case Dbl(x) => if IsInt64(k) then Some(Dbl(x + k as real)) else None
    case Date(x) => if IsInt64(k) then Some(Date(x + k)) else None
    case _ => None
  }

  /** Any machine, with these operations. */
  function WithArithmetic(m: Sem): Sem
  {
    m.(binary := (op, a, b) =>
         if op == Arith(ArithOp.Plus) then Plus(a, b)
         else if op == Arith(ArithOp.Minus) then Minus(a, b)
         else m.binary(op, a, b),
       unary := (op, a) =>
         if op == Inc then Step(true, a) else if op == Dec then Step(false, a) else m.unary(op, a),
       addInt := (a, k) => AddLiteral(a, k))
  }

  lemma StepIsPlus(v: Value)
    ensures Step(true, v) == Plus(v, Num(1)) == Plus(Num(1), v)
    ensures Step(false, v) == Plus(v, Num(-1)) == Plus(Num(-1), v)
  {
  }

  lemma LiteralIsPlus(v: Value, k: S16)
    ensures AddLiteral(v, k) == Plus(v, Num(k))
    ensures k > -0x8000 ==> Minus(v, Num(k)) == Plus(v, Num(-k))
  {
  }

  function AsReal(v: Value): real
    requires v.Num? || v.Dbl?
  {
    if v.Num? then v.n as real else v.r
  }

  /** Sums and differences of numbers are exact, and integers as long as operands and result are. */
  lemma NumbersAreExact(a: Value, b: Value)
    requires (a.Num? && IsInt64(a.n)) || a.Dbl?
    requires (b.Num? && IsInt64(b.n)) || b.Dbl?
    ensures var r := Plus(a, b);
      && r.Some? && (r.value.Num? || r.value.Dbl?) && AsReal(r.value) == AsReal(a) + AsReal(b)
      && (r.value.Num? <==> a.Num? && b.Num? && IsInt64(a.n + b.n))
    ensures var r := Minus(a, b);
      && r.Some? && (r.value.Num? || r.value.Dbl?) && AsReal(r.value) == AsReal(a) - AsReal(b)
      && (r.value.Num? <==> a.Num? && b.Num? && IsInt64(a.n - b.n))
  {
    hide AddInts, SubtractInts;
    if a.Num? && b.Num? {
      OverflowDetected(a.n, b.n);
    }
  }

  /** Days can be added to a date from either side and taken off again, and the difference of two dates
      is the number of days between them. Fractions of a day are cut off. */
  lemma DatesAndDays(d: int, days: Value)
    requires (days.Num? && IsInt64(days.n)) || days.Dbl?
    ensures var n := if days.Num? then days.n else Truncate(days.r);
      && Plus(Date(d), days) == Plus(days, Date(d)) == Some(Date(d + n))
      && Minus(Date(d + n), days) == Some(Date(d))
      && Minus(Date(d + n), Date(d)) == Some(Num(n))
  {
  }

  /** The laws hold of the machine's own operations, overflow and dates included. */
  lemma MachineIsLawful(m: Sem)
    ensures Lawful(WithArithmetic(m))
  {
    var w := WithArithmetic(m);
    forall v
      ensures w.unary(Inc, v) == w.binary(Arith(ArithOp.Plus), v, Num(1)) == w.binary(Arith(ArithOp.Plus), Num(1), v)
      ensures w.unary(Dec, v) == w.binary(Arith(ArithOp.Plus), v, Num(-1)) == w.binary(Arith(ArithOp.Plus), Num(-1), v)
    {
      StepIsPlus(v);
    }
    forall v, k: S16 | k > -0x8000
      ensures w.binary(Arith(ArithOp.Minus), v, Num(k)) == w.binary(Arith(ArithOp.Plus), v, Num(-k))
    {
      LiteralIsPlus(v, k);
    }
    forall v, k: S16
      ensures w.addInt(v, k) == w.binary(Arith(ArithOp.Plus), v, Num(k))
    {
      LiteralIsPlus(v, k);
    }
  }
}
