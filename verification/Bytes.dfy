/** Fixed-width integers in byte buffers (include/hbdefs.h).

    The specification functions `LE` and `BE` give the bytes of an integer of any width; the
    methods are the byte-by-byte macros, which write into a buffer in place. */
module Bytes {
  type byte = b: int | 0 <= b < 256

  /** Powers of the two bases in use. */
  function Pow2(n: nat): (p: nat)
    ensures p >= 1
  {
    if n == 0 then 1 else 2 * Pow2(n - 1)
  }

  function Pow256(k: nat): (p: nat)
    ensures p >= 1
  {
    if k == 0 then 1 else 256 * Pow256(k - 1)
  }

  /** The low `k` bytes of `n`, least significant first; negative numbers in two's complement. */
  function LE(n: int, k: nat): (s: seq<byte>)
    ensures |s| == k
    decreases k
  {
    if k == 0 then [] else [n % 256] + LE(n / 256, k - 1)
  }

  /** The same bytes, most significant first. */
  function BE(n: int, k: nat): (s: seq<byte>)
    ensures |s| == k
  {
    Reverse(LE(n, k))
  }

  function Reverse<T>(s: seq<T>): (r: seq<T>)
    ensures |r| == |s|
    ensures forall i :: 0 <= i < |s| ==> r[i] == s[|s| - 1 - i]
  {
    if s == [] then [] else Reverse(s[1..]) + [s[0]]
  }

  function FromLE(s: seq<byte>): nat
  {
    if s == [] then 0 else s[0] + 256 * FromLE(s[1..])
  }

  function FromBE(s: seq<byte>): nat
  {
    FromLE(Reverse(s))
  }

  /** Two's complement reading of the `k`-byte number `u`. */
  function Signed(u: int, k: nat): int
  {
    if 2 * u < Pow256(k) then u else u - Pow256(k)
  }

  function SignedLE(s: seq<byte>): int
  {
    Signed(FromLE(s), |s|)
  }

  ghost predicate FitsSigned(n: int, k: nat)
  {
    0 - Pow256(k) <= 2 * n < Pow256(k)
  }

  // ----- reading back what was written -----

  lemma ModSplit(n: int, m: int)
    requires m >= 1
    ensures n % (256 * m) == n % 256 + 256 * ((n / 256) % m)
  {
    var q, r := n / 256, n % 256;
    var q', r' := q / m, q % m;
    assert n == 256 * (q' * m + r') + r;
    assert n == (256 * m) * q' + (256 * r' + r);
    assert 0 <= 256 * r' + r < 256 * m;
    DivModUnique(n, 256 * m, q', 256 * r' + r);
  }

  lemma DivModUnique(n: int, d: int, q: int, r: int)
    requires d > 0 && n == d * q + r && 0 <= r < d
    ensures n / d == q && n % d == r
  {
    var q2, r2 := n / d, n % d;
    assert n == d * q2 + r2;
    if q2 > q {
      MulMonotone(d, q + 1, q2);
    } else if q2 < q {
      MulMonotone(d, q2 + 1, q);
    }
  }

  lemma MulNext(d: int, x: int)
    ensures d * (x + 1) == d * x + d
  {
  }

  lemma MulMonotone(d: int, x: int, y: int)
    requires d >= 0 && x <= y
    ensures d * x <= d * y
  {
  }

  /** A little-endian write keeps exactly the low bits. */
  lemma {:induction false} FromLEOfLE(n: int, k: nat)
    ensures FromLE(LE(n, k)) == n % Pow256(k)
    decreases k
  {
    if k == 0 {
    } else {
      FromLEOfLE(n / 256, k - 1);
      ModSplit(n, Pow256(k - 1));
      assert LE(n, k)[1..] == LE(n / 256, k - 1);
    }
  }

  lemma {:induction false} LEOfFromLE(s: seq<byte>)
    ensures LE(FromLE(s), |s|) == s
  {
    if s != [] {
      LEOfFromLE(s[1..]);
      DivModUnique(FromLE(s), 256, FromLE(s[1..]), s[0]);
      assert s == [s[0]] + s[1..];
    }
  }

  lemma {:induction false} FromLEBound(s: seq<byte>)
    ensures FromLE(s) < Pow256(|s|)
  {
    if s != [] {
      FromLEBound(s[1..]);
    }
  }

  /** Put, then get, of a signed number of any width. */
  lemma SignedRoundTrip(n: int, k: nat)
    requires FitsSigned(n, k)
    ensures SignedLE(LE(n, k)) == n
  {
    FromLEOfLE(n, k);
    if n >= 0 {
      DivModUnique(n, Pow256(k), 0, n);
    } else {
      DivModUnique(n, Pow256(k), -1, n + Pow256(k));
    }
  }

  lemma UnsignedRoundTrip(n: int, k: nat)
    requires 0 <= n < Pow256(k)
    ensures FromLE(LE(n, k)) == n
  {
    FromLEOfLE(n, k);
    DivModUnique(n, Pow256(k), 0, n);
  }

  lemma {:induction false} ReverseTwice<T>(s: seq<T>)
    ensures Reverse(Reverse(s)) == s
  {
  }

  /** A big-endian put followed by a big-endian get is the identity, and followed by a
      little-endian get it is the byte reversal. */
  lemma BigEndianRoundTrip(n: int, k: nat)
    requires 0 <= n < Pow256(k)
    ensures FromBE(BE(n, k)) == n
    ensures FromLE(BE(n, k)) == FromBE(LE(n, k))
    ensures LE(FromLE(BE(n, k)), k) == Reverse(LE(n, k))
  {
    ReverseTwice(LE(n, k));
    UnsignedRoundTrip(n, k);
    LEOfFromLE(BE(n, k));
  }

  // ----- big-endian order is numeric order -----

  /** memcmp order of two keys of the same length. */
  predicate LexLess(a: seq<byte>, b: seq<byte>)
    requires |a| == |b|
  {
    a != [] && (a[0] < b[0] || (a[0] == b[0] && LexLess(a[1..], b[1..])))
  }

  function HighFirst(s: seq<byte>): nat
  {
    if s == [] then 0 else Pow256(|s| - 1) * s[0] + HighFirst(s[1..])
  }

  lemma {:induction false} HighFirstBound(s: seq<byte>)
    ensures HighFirst(s) < Pow256(|s|)
  {
    if s != [] {
      HighFirstBound(s[1..]);
      MulMonotone(Pow256(|s| - 1), s[0], 255);
    }
  }

  /** The first byte decides, whatever follows. */
  lemma HighByteDecides(a: seq<byte>, b: seq<byte>)
    requires |a| == |b| && a != [] && a[0] < b[0]
    ensures HighFirst(a) < HighFirst(b)
  {
    var p := Pow256(|a| - 1);
    HighFirstBound(a[1..]);
    MulNext(p, a[0]);
    MulMonotone(p, a[0] + 1, b[0]);
  }

  lemma {:induction false} LexIsNumeric(a: seq<byte>, b: seq<byte>)
    requires |a| == |b|
    ensures LexLess(a, b) <==> HighFirst(a) < HighFirst(b)
  {
    if a == [] {
    } else if a[0] < b[0] {
      HighByteDecides(a, b);
    } else if b[0] < a[0] {
      HighByteDecides(b, a);
    } else {
      LexIsNumeric(a[1..], b[1..]);
    }
  }

  lemma {:induction false} FromLEAppend(s: seq<byte>, h: byte)
    ensures FromLE(s + [h]) == FromLE(s) + Pow256(|s|) * h
  {
    if s == [] {
    } else {
      assert (s + [h])[1..] == s[1..] + [h];
      FromLEAppend(s[1..], h);
    }
  }

  lemma {:induction false} HighFirstIsFromBE(s: seq<byte>)
    ensures HighFirst(s) == FromBE(s)
  {
    if s != [] {
      HighFirstIsFromBE(s[1..]);
      FromLEAppend(Reverse(s[1..]), s[0]);
    }
  }
}
