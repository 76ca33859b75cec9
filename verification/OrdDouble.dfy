/** Doubles as index keys (include/hbdefs.h, little-endian pair): eight bytes whose lexicographic
    order is the numeric order, for binary64 numbers as in section 3.4 of IEEE 754-2008. */
module OrdDouble {
  import opened Bytes

  const SIGN := 0x8000_0000_0000_0000
  const HIDDEN := 0x10_0000_0000_0000
  const INFINITE := 0x7FF0_0000_0000_0000

  /** The bytes of a double in memory, least significant first. */
  type Double = s: seq<byte> | |s| == 8 witness [0, 0, 0, 0, 0, 0, 0, 0]

  /** A key, most significant byte first. */
  type Key = s: seq<byte> | |s| == 8 witness [0, 0, 0, 0, 0, 0, 0, 0]

  // ----- exclusive or of bytes -----

  /** Bitwise exclusive or of `k`-bit numbers. */
  function Xor(x: nat, y: nat, k: nat): nat
  {
    if k == 0 then 0 else (x % 2 + y % 2) % 2 + 2 * Xor(x / 2, y / 2, k - 1)
  }

  lemma {:induction false} XorOnes(x: nat, k: nat)
    requires x < Pow2(k)
    ensures Xor(x, Pow2(k) - 1, k) == Pow2(k) - 1 - x
  {
    if k > 0 {
      XorOnes(x / 2, k - 1);
      assert (Pow2(k) - 1) / 2 == Pow2(k - 1) - 1;
    }
  }

  lemma {:induction false} XorZero(x: nat, k: nat)
    requires x < Pow2(k)
    ensures Xor(x, 0, k) == x
  {
    if k > 0 {
      XorZero(x / 2, k - 1);
    }
  }

  lemma {:induction false} XorTop(x: nat, k: nat)
    requires k >= 1 && x < Pow2(k)
    ensures Xor(x, Pow2(k - 1), k) == if x < Pow2(k - 1) then x + Pow2(k - 1) else x - Pow2(k - 1)
  {
    if k > 1 {
      XorTop(x / 2, k - 1);
      assert Pow2(k - 1) / 2 == Pow2(k - 2);
    }
  }

  lemma EightBits()
    ensures Pow2(7) == 128 && Pow2(8) == 256
  {
    assert Pow2(4) == 16;
  }

  lemma XorBound(x: byte)
    ensures Xor(x, 0xFF, 8) == 255 - x
    ensures Xor(x, 0x80, 8) == if x < 128 then x + 128 else x - 128
  {
    EightBits();
    XorOnes(x, 8);
    XorTop(x, 8);
  }

  function XorByte(x: byte, mask: byte): (r: byte)
    requires mask == 0x80 || mask == 0xFF
  {
    XorBound(x);
    Xor(x, mask, 8)
  }

  // ----- the numbers doubles stand for -----

  function Bits(d: Double): nat
  {
    FromLE(d)
  }

  predicate Negative(d: Double)
  {
    d[7] >= 128
  }

  /** The sign is the top bit of the last byte. */
  lemma TopByte(d: Double)
    ensures Negative(d) <==> Bits(d) >= SIGN
    ensures Bits(d) < 2 * SIGN
  {
    assert d == d[..7] + [d[7]];
    FromLEAppend(d[..7], d[7]);
    FromLEBound(d[..7]);
    SevenBytes();
    MulMonotone(Pow256(7), d[7], 255);
    if d[7] >= 128 {
      MulMonotone(Pow256(7), 128, d[7]);
    } else {
      MulMonotone(Pow256(7), d[7], 127);
    }
  }

  lemma SevenBytes()
    ensures Pow256(7) == 0x100_0000_0000_0000 && Pow256(8) == 2 * SIGN
  {
    assert Pow256(3) == 0x100_0000;
    assert Pow256(5) == 0x100_0000_0000;
    assert Pow256(7) == 256 * (256 * Pow256(5));
  }

  /** Exponent and fraction: the representation without the sign. */
  function Magnitude(d: Double): (m: nat)
    ensures m < SIGN
  {
    TopByte(d);
    if Negative(d) then Bits(d) - SIGN else Bits(d)
  }

  predicate IsNaN(d: Double)
  {
    Magnitude(d) > INFINITE
  }

  /** Finite numbers are scaled by 2^1074, the smallest subnormal. */
  datatype Number = MinusInfinity | Finite(scaled: int) | PlusInfinity

  predicate Less(a: Number, b: Number)
  {
    match a
    case MinusInfinity => !b.MinusInfinity?
    case Finite(x) => b.PlusInfinity? || (b.Finite? && x < b.scaled)
    case PlusInfinity => false
  }

  /** Significand and exponent of a finite magnitude; subnormals have no hidden bit. */
  function Scaled(mag: nat): nat
  {
    var e, f := mag / HIDDEN, mag % HIDDEN;
    if e == 0 then f else (HIDDEN + f) * Pow2(e - 1)
  }

  function ValueOf(d: Double): Number
    requires !IsNaN(d)
  {
    var mag := Magnitude(d);
    if mag == INFINITE then (if Negative(d) then MinusInfinity else PlusInfinity)
    else Finite(if Negative(d) then 0 - Scaled(mag) else Scaled(mag))
  }

  /** The comparison `d >= 0.0`, false of NaNs and true of both zeros. */
  predicate AtLeastZero(d: Double)
  {
    !IsNaN(d) && (!Negative(d) || Magnitude(d) == 0)
  }

  const ZERO: Double := [0, 0, 0, 0, 0, 0, 0, 0]

  /** Negative zero becomes positive zero. */
  function Normal(d: Double): Double
  {
    if Magnitude(d) == 0 then ZERO else d
  }

  // ----- the two conversions, on values -----

  function FlipAll(s: seq<byte>): (r: seq<byte>)
    ensures |r| == |s| && forall i :: 0 <= i < |s| ==> r[i] == XorByte(s[i], 0xFF)
  {
    if s == [] then [] else [XorByte(s[0], 0xFF)] + FlipAll(s[1..])
  }

  function FlipSign(s: seq<byte>): (r: seq<byte>)
    requires s != []
    ensures |r| == |s|
  {
    s[0 := XorByte(s[0], 0x80)]
  }

  function ToKey(d: Double): Key
  {
    if AtLeastZero(d) then FlipSign(Reverse(Normal(d))) else FlipAll(Reverse(d))
  }

  function FromKey(o: Key): Double
  {
    if o[0] >= 128 then Reverse(FlipSign(o)) else Reverse(FlipAll(o))
  }

  // ----- numeric order is the order of the signed magnitudes -----

  lemma {:induction false} Pow2Step(m: nat, n: nat)
    requires m <= n
    ensures Pow2(m) <= Pow2(n)
  {
    if m < n {
      Pow2Step(m, n - 1);
    }
  }

  lemma SameBinade(p: nat, f: nat, h: nat)
    requires f < h && p >= 1
    ensures (HIDDEN + f) * p < (HIDDEN + h) * p
  {
    MulNext(p, HIDDEN + f);
    MulMonotone(p, HIDDEN + f + 1, HIDDEN + h);
  }

  lemma NextBinade(e: nat, f: nat, g: nat, h: nat)
    requires 1 <= e < g && f < HIDDEN
    ensures (HIDDEN + f) * Pow2(e - 1) < (HIDDEN + h) * Pow2(g - 1)
  {
    Pow2Step(e, g - 1);
    BinadeEnd(HIDDEN + f, Pow2(e - 1), Pow2(e));
    MulMonotone(HIDDEN, Pow2(e), Pow2(g - 1));
    MulMonotone(Pow2(g - 1), HIDDEN, HIDDEN + h);
  }

  /** Larger representations without sign are larger numbers: across the subnormals, within a
      binade and from one binade to the next. */
  lemma ScaledMonotone(x: nat, y: nat)
    requires x < y
    ensures Scaled(x) < Scaled(y)
  {
    var e, f, g, h := x / HIDDEN, x % HIDDEN, y / HIDDEN, y % HIDDEN;
    if e == g {
      if e > 0 {
        SameBinade(Pow2(e - 1), f, h);
      }
    } else if e == 0 {
      MulMonotone(HIDDEN + h, 1, Pow2(g - 1));
    } else {
      NextBinade(e, f, g, h);
    }
  }

  lemma BinadeEnd(significand: nat, p: nat, q: nat)
    requires significand < 2 * HIDDEN && q == 2 * p && p >= 1
    ensures significand * p < HIDDEN * q
  {
    MulNext(p, significand);
    MulMonotone(p, significand + 1, 2 * HIDDEN);
  }

  /** The representation read as sign and magnitude. */
  function Rank(d: Double): int
  {
    if Negative(d) then 0 - Magnitude(d) else Magnitude(d)
  }

  lemma RankOrder(a: Double, b: Double)
    requires !IsNaN(a) && !IsNaN(b)
    ensures Less(ValueOf(a), ValueOf(b)) <==> Rank(a) < Rank(b)
    ensures ValueOf(a) == ValueOf(b) <==> Rank(a) == Rank(b)
  {
    hide Negative;
    var x, y := Magnitude(a), Magnitude(b);
    if x < y {
      ScaledMonotone(x, y);
    }
    if y < x {
      ScaledMonotone(y, x);
    }
    if x > 0 {
      ScaledMonotone(0, x);
    }
    if y > 0 {
      ScaledMonotone(0, y);
    }
  }

  // ----- the number a key holds -----

  lemma {:induction false} FlipAllHolds(s: seq<byte>)
    ensures HighFirst(FlipAll(s)) == Pow256(|s|) - 1 - HighFirst(s)
  {
    if s != [] {
      FlipAllHolds(s[1..]);
      XorBound(s[0]);
      assert FlipAll(s)[1..] == FlipAll(s[1..]);
      MulSub(Pow256(|s| - 1), s[0]);
    }
  }

  lemma MulSub(p: int, x: int)
    ensures p * (255 - x) == 255 * p - p * x
  {
  }

  lemma FlipSignHolds(s: seq<byte>)
    requires |s| == 8 && s[0] < 128
    ensures HighFirst(FlipSign(s)) == HighFirst(s) + SIGN
  {
    XorBound(s[0]);
    SevenBytes();
    assert FlipSign(s)[1..] == s[1..];
  }

  lemma ReverseHolds(d: Double)
    ensures HighFirst(Reverse(d)) == Bits(d)
  {
    HighFirstIsFromBE(Reverse(d));
    ReverseTwice(d);
  }

  lemma NormalBits(d: Double)
    requires AtLeastZero(d)
    ensures Bits(Normal(d)) == Magnitude(d) && Normal(d)[7] < 128
  {
    TopByte(d);
    if Magnitude(d) == 0 {
      ZeroBits();
    }
  }

  lemma ZeroBits()
    ensures Bits(ZERO) == 0
  {
    assert LE(0, 2) == [0, 0];
    assert LE(0, 4) == [0, 0] + LE(0, 2);
    assert LE(0, 6) == [0, 0] + LE(0, 4);
    assert LE(0, 8) == [0, 0] + LE(0, 6);
    UnsignedRoundTrip(0, 8);
  }

  /** Non-negative numbers get keys from 2^63 up, negative ones from just below it down. */
  lemma KeyHolds(d: Double)
    ensures HighFirst(ToKey(d)) == if AtLeastZero(d) then SIGN + Magnitude(d) else 2 * SIGN - 1 - Bits(d)
  {
    if AtLeastZero(d) {
      NormalBits(d);
      ReverseHolds(Normal(d));
      FlipSignHolds(Reverse(Normal(d)));
    } else {
      ReverseHolds(d);
      FlipAllHolds(Reverse(d));
      SevenBytes();
    }
  }

  /** Keys compare byte by byte as the numbers compare, for all numbers including subnormals,
      infinities and both zeros; equal numbers, and only those, have equal keys. */
  lemma KeyOrder(a: Double, b: Double)
    requires !IsNaN(a) && !IsNaN(b)
    ensures LexLess(ToKey(a), ToKey(b)) <==> Less(ValueOf(a), ValueOf(b))
    ensures ToKey(a) == ToKey(b) <==> ValueOf(a) == ValueOf(b)
  {
    hide ToKey, ValueOf, Less, LexLess;
    KeyHolds(a);
    KeyHolds(b);
    LexIsNumeric(ToKey(a), ToKey(b));
    LexIsNumeric(ToKey(b), ToKey(a));
    LexTotal(ToKey(a), ToKey(b));
    TopByte(a);
    TopByte(b);
    RankOrder(a, b);
  }

  lemma {:induction false} LexTotal(a: seq<byte>, b: seq<byte>)
    requires |a| == |b|
    ensures a == b <==> !LexLess(a, b) && !LexLess(b, a)
  {
    if a != [] {
      LexTotal(a[1..], b[1..]);
      assert a == [a[0]] + a[1..] && b == [b[0]] + b[1..];
    }
  }

  // ----- decoding -----

  lemma {:induction false} FlipAllTwice(s: seq<byte>)
    ensures FlipAll(FlipAll(s)) == s
  {
    forall i | 0 <= i < |s|
      ensures FlipAll(FlipAll(s))[i] == s[i]
    {
      XorBound(s[i]);
      XorBound(255 - s[i]);
    }
  }

  lemma FlipSignTwice(s: seq<byte>)
    requires s != []
    ensures FlipSign(FlipSign(s)) == s
  {
    XorBound(s[0]);
    XorBound(XorByte(s[0], 0x80));
  }

  /** Decoding a key gives the double back, with negative zero turned positive; among the NaNs this
      holds exactly of those with the sign bit set. */
  lemma KeyRoundTrip(d: Double)
    ensures FromKey(ToKey(d)) == Normal(d) <==> !(IsNaN(d) && !Negative(d))
  {
    XorBound(d[7]);
    if AtLeastZero(d) {
      NormalBits(d);
      var r := Reverse(Normal(d));
      XorBound(r[0]);
      FlipSignTwice(r);
      ReverseTwice(Normal(d));
    } else {
      TopByte(d);
      var r := Reverse(d);
      FlipAllTwice(r);
      ReverseTwice(d);
      if !Negative(d) {
        PositiveNaNLost(d);
      }
    }
  }

  lemma PositiveNaNLost(d: Double)
    requires IsNaN(d) && !Negative(d)
    ensures FromKey(ToKey(d))[0] != d[0] && Normal(d) == d
  {
    XorBound(d[7]);
    XorBound(d[0]);
    assert ToKey(d)[0] == XorByte(d[7], 0xFF);
    assert FromKey(ToKey(d))[0] == FlipSign(ToKey(d))[7] == XorByte(d[0], 0xFF);
  }

  // ----- the big-endian pair -----

  /** The pair for machines that keep doubles most significant byte first: encoding flips the sign
      in byte 0, but decoding flips the top bit of byte 7. */
  function ToKeyBig(d: Double): Key
  {
    if AtLeastZero(Reverse(d)) then FlipSign(Reverse(Normal(Reverse(d)))) else FlipAll(d)
  }

  function FromKeyBig(o: Key): Double
  {
    if o[0] >= 128 then o[7 := XorByte(o[7], 0x80)] else FlipAll(o)
  }

  lemma BigNotBelowZero(d: Double)
    requires AtLeastZero(Reverse(d))
    ensures FromKeyBig(ToKeyBig(d)) != Reverse(Normal(Reverse(d)))
  {
    hide AtLeastZero, Normal, FlipAll, XorByte;
    NormalBits(Reverse(d));
    var n := Reverse(Normal(Reverse(d)));
    XorBound(n[0]);
    assert ToKeyBig(d) == n[0 := XorByte(n[0], 0x80)];
    assert FromKeyBig(ToKeyBig(d))[0] == XorByte(n[0], 0x80) != n[0] by { TopFlips(n[0]); }
  }

  lemma TopFlips(x: byte)
    ensures XorByte(x, 0x80) == if x < 128 then x + 128 else x - 128
  {
    XorBound(x);
  }

  lemma BigOther(d: Double)
    requires !AtLeastZero(Reverse(d))
    ensures FromKeyBig(ToKeyBig(d)) == Reverse(Normal(Reverse(d))) <==> Negative(Reverse(d))
  {
    hide FlipAll, XorByte;
    ReverseTwice(d);
    assert Reverse(Normal(Reverse(d))) == d;
    assert FlipAll(d)[0] == 255 - d[0] by { XorBound(d[0]); assert XorByte(d[0], 0xFF) == 255 - d[0] by { AllFlips(d[0]); } }
    if Negative(Reverse(d)) {
      FlipAllTwice(d);
    } else {
      assert FromKeyBig(ToKeyBig(d))[0] == FlipAll(d)[0];
    }
  }

  lemma AllFlips(x: byte)
    ensures XorByte(x, 0xFF) == 255 - x
  {
    XorBound(x);
  }

  /** So there the round trip holds exactly when the sign bit is set and the number is not minus zero;
      NaNs with a set sign bit are among them. */
  lemma BigEndianRoundTrip(d: Double)
    ensures FromKeyBig(ToKeyBig(d)) == Reverse(Normal(Reverse(d))) <==>
      Negative(Reverse(d)) && !AtLeastZero(Reverse(d))
  {
    hide AtLeastZero, Normal, FlipAll, FromKeyBig, ToKeyBig;
    if AtLeastZero(Reverse(d)) {
      BigNotBelowZero(d);
    } else {
      BigOther(d);
    }
  }

  // ----- the macros -----

  /** HB_DBL2ORD: negative zero is normalised in the caller's variable, too. */
  method Dbl2Ord(d: array<byte>, o: array<byte>)
    requires d.Length == 8 && o.Length == 8 && d != o
    modifies d, o
    ensures o[..] == ToKey(old(d[..]))
    ensures d[..] == if AtLeastZero(old(d[..])) then Normal(old(d[..])) else old(d[..])
  {
    ghost var was: Double := d[..];
    if AtLeastZero(d[..]) {
      if Magnitude(d[..]) == 0 {
        forall i | 0 <= i < 8 {
          d[i] := 0;
        }
        assert d[..] == ZERO;
      }
      o[0] := XorByte(d[7], 0x80);
      o[1], o[2], o[3], o[4], o[5], o[6], o[7] := d[6], d[5], d[4], d[3], d[2], d[1], d[0];
      assert o[..] == FlipSign(Reverse(d[..]));
    } else {
      o[0], o[1], o[2], o[3] := XorByte(d[7], 0xFF), XorByte(d[6], 0xFF), XorByte(d[5], 0xFF), XorByte(d[4], 0xFF);
      o[4], o[5], o[6], o[7] := XorByte(d[3], 0xFF), XorByte(d[2], 0xFF), XorByte(d[1], 0xFF), XorByte(d[0], 0xFF);
      assert o[..] == FlipAll(Reverse(d[..]));
    }
  }

  /** HB_ORD2DBL. */
  method Ord2Dbl(o: array<byte>, d: array<byte>)
    requires d.Length == 8 && o.Length == 8 && d != o
    modifies d
    ensures d[..] == FromKey(o[..])
  {
    if o[0] >= 128 {
      d[0], d[1], d[2], d[3], d[4], d[5], d[6] := o[7], o[6], o[5], o[4], o[3], o[2], o[1];
      d[7] := XorByte(o[0], 0x80);
      assert d[..] == Reverse(FlipSign(o[..]));
    } else {
      d[0], d[1], d[2], d[3] := XorByte(o[7], 0xFF), XorByte(o[6], 0xFF), XorByte(o[5], 0xFF), XorByte(o[4], 0xFF);
      d[4], d[5], d[6], d[7] := XorByte(o[3], 0xFF), XorByte(o[2], 0xFF), XorByte(o[1], 0xFF), XorByte(o[0], 0xFF);
      assert d[..] == Reverse(FlipAll(o[..]));
    }
  }
}
