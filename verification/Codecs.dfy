/** The byte-by-byte integer macros of include/hbdefs.h: each writes into a buffer in place, and each
    reading macro gives back what the writing one put. */
module Codecs {
  import opened Bytes

  /** `s` with the bytes of `v` written at `at`. */
  function Written(s: seq<byte>, at: nat, v: seq<byte>): seq<byte>
    requires at + |v| <= |s|
  {
    s[..at] + v + s[at + |v|..]
  }

  /** The byte shifted down by `8 * k`. */
  function Shifted(n: int, k: nat): byte
  {
    n / Pow256(k) % 256
  }

  lemma {:induction false} LEAt(n: int, k: nat, i: nat)
    requires i < k
    ensures LE(n, k)[i] == Shifted(n, i)
    decreases k
  {
    if i > 0 {
      LEAt(n / 256, k - 1, i - 1);
      DivDiv(n, Pow256(i - 1));
    }
  }

  lemma DivDiv(n: int, m: int)
    requires m >= 1
    ensures n / 256 / m == n / (256 * m)
  {
    var q, r := n / 256, n % 256;
    var q', r' := q / m, q % m;
    assert n == (256 * m) * q' + (256 * r' + r);
    DivModUnique(n, 256 * m, q', 256 * r' + r);
  }

  lemma LEIs(n: int, s: seq<byte>)
    requires forall i :: 0 <= i < |s| ==> s[i] == Shifted(n, i)
    ensures s == LE(n, |s|)
  {
    forall i | 0 <= i < |s|
      ensures s[i] == LE(n, |s|)[i]
    {
      LEAt(n, |s|, i);
    }
  }

  lemma BEIs(n: int, s: seq<byte>)
    requires forall i :: 0 <= i < |s| ==> s[i] == Shifted(n, |s| - 1 - i)
    ensures s == BE(n, |s|)
  {
    forall i | 0 <= i < |s|
      ensures s[i] == BE(n, |s|)[i]
    {
      LEAt(n, |s|, |s| - 1 - i);
    }
  }

  method PutLE16(p: array<byte>, at: nat, n: int)
    requires at + 2 <= p.Length
    modifies p
    ensures p[..] == Written(old(p[..]), at, LE(n, 2))
  {
    hide Shifted;
    p[at], p[at + 1] := Shifted(n, 0), Shifted(n, 1);
    LEIs(n, p[at..at + 2]);
    assert p[..] == Written(old(p[..]), at, p[at..at + 2]);
  }

  method PutLE24(p: array<byte>, at: nat, n: int)
    requires at + 3 <= p.Length
    modifies p
    ensures p[..] == Written(old(p[..]), at, LE(n, 3))
  {
    hide Shifted;
    p[at], p[at + 1], p[at + 2] := Shifted(n, 0), Shifted(n, 1), Shifted(n, 2);
    LEIs(n, p[at..at + 3]);
    assert p[..] == Written(old(p[..]), at, p[at..at + 3]);
  }

  method PutLE32(p: array<byte>, at: nat, n: int)
    requires at + 4 <= p.Length
    modifies p
    ensures p[..] == Written(old(p[..]), at, LE(n, 4))
  {
    hide Shifted;
    p[at], p[at + 1], p[at + 2], p[at + 3] := Shifted(n, 0), Shifted(n, 1), Shifted(n, 2), Shifted(n, 3);
    LEIs(n, p[at..at + 4]);
    assert p[..] == Written(old(p[..]), at, p[at..at + 4]);
  }

  /** Two neighbouring stretches written one after the other. */
  lemma WrittenTwice(s: seq<byte>, at: nat, v: seq<byte>, u: seq<byte>)
    requires at + |v| + |u| <= |s|
    ensures Written(Written(s, at, v), at + |v|, u) == Written(s, at, v + u)
  {
  }

  method PutFour(p: array<byte>, at: nat, b0: byte, b1: byte, b2: byte, b3: byte)
    requires at + 4 <= p.Length
    modifies p
    ensures p[..] == Written(old(p[..]), at, [b0, b1, b2, b3])
  {
    p[at], p[at + 1], p[at + 2], p[at + 3] := b0, b1, b2, b3;
  }

  method PutLE64(p: array<byte>, at: nat, n: int)
    requires at + 8 <= p.Length
    modifies p
    ensures p[..] == Written(old(p[..]), at, LE(n, 8))
  {
    hide Shifted, Written;
    PutFour(p, at, Shifted(n, 0), Shifted(n, 1), Shifted(n, 2), Shifted(n, 3));
    PutFour(p, at + 4, Shifted(n, 4), Shifted(n, 5), Shifted(n, 6), Shifted(n, 7));
    ghost var low, high := [Shifted(n, 0), Shifted(n, 1), Shifted(n, 2), Shifted(n, 3)], [Shifted(n, 4), Shifted(n, 5), Shifted(n, 6), Shifted(n, 7)];
    LEIs(n, low + high);
    WrittenTwice(old(p[..]), at, low, high);
  }

  method PutBE16(p: array<byte>, at: nat, n: int)
    requires at + 2 <= p.Length
    modifies p
    ensures p[..] == Written(old(p[..]), at, BE(n, 2))
  {
    hide Shifted;
    p[at], p[at + 1] := Shifted(n, 1), Shifted(n, 0);
    BEIs(n, p[at..at + 2]);
    assert p[..] == Written(old(p[..]), at, p[at..at + 2]);
  }

  method PutBE24(p: array<byte>, at: nat, n: int)
    requires at + 3 <= p.Length
    modifies p
    ensures p[..] == Written(old(p[..]), at, BE(n, 3))
  {
    hide Shifted;
    p[at + 2], p[at + 1], p[at] := Shifted(n, 0), Shifted(n, 1), Shifted(n, 2);
    BEIs(n, p[at..at + 3]);
    assert p[..] == Written(old(p[..]), at, p[at..at + 3]);
  }

  method PutBE32(p: array<byte>, at: nat, n: int)
    requires at + 4 <= p.Length
    modifies p
    ensures p[..] == Written(old(p[..]), at, BE(n, 4))
  {
    hide Shifted;
    p[at], p[at + 1], p[at + 2], p[at + 3] := Shifted(n, 3), Shifted(n, 2), Shifted(n, 1), Shifted(n, 0);
    BEIs(n, p[at..at + 4]);
    assert p[..] == Written(old(p[..]), at, p[at..at + 4]);
  }

  method PutBE64(p: array<byte>, at: nat, n: int)
    requires at + 8 <= p.Length
    modifies p
    ensures p[..] == Written(old(p[..]), at, BE(n, 8))
  {
    hide Shifted, Written;
    PutFour(p, at, Shifted(n, 7), Shifted(n, 6), Shifted(n, 5), Shifted(n, 4));
    PutFour(p, at + 4, Shifted(n, 3), Shifted(n, 2), Shifted(n, 1), Shifted(n, 0));
    ghost var low, high := [Shifted(n, 7), Shifted(n, 6), Shifted(n, 5), Shifted(n, 4)], [Shifted(n, 3), Shifted(n, 2), Shifted(n, 1), Shifted(n, 0)];
    BEIs(n, low + high);
    WrittenTwice(old(p[..]), at, low, high);
  }

  // ----- reading -----

  /** The bytes added up with their weights, least significant first. */
  function Sum(s: seq<byte>, k: nat): nat
    requires k <= |s|
  {
    if k == 0 then 0 else Sum(s, k - 1) + Pow256(k - 1) * s[k - 1]
  }

  lemma {:induction false} SumIsFromLE(s: seq<byte>, k: nat)
    requires k <= |s|
    ensures Sum(s, k) == FromLE(s[..k])
  {
    if k > 0 {
      SumIsFromLE(s, k - 1);
      assert s[..k] == s[..k - 1] + [s[k - 1]];
      FromLEAppend(s[..k - 1], s[k - 1]);
    }
  }

  /** HB_GET_LE_INT24: the sign bit of the third byte is copied into a fourth one, and the four
      bytes are a signed 32-bit number. */
  function GetInt24(s: seq<byte>): int
    requires |s| == 3
  {
    Signed(Sum(s, 3) + Pow256(3) * (if s[2] >= 128 then 0xFF else 0), 4)
  }

  lemma Int24Ok(s: seq<byte>)
    requires |s| == 3
    ensures GetInt24(s) == SignedLE(s)
  {
    SumIsFromLE(s, 3);
    assert s[..3] == s;
    var b0: int, b1: int, b2: int := s[0], s[1], s[2];
    assert Pow256(1) == 0x100 && Pow256(2) == 0x10000;
    assert Sum(s, 1) == b0;
    assert Sum(s, 2) == b0 + 0x100 * b1;
    assert Sum(s, 3) == b0 + 0x100 * b1 + 0x10000 * b2;
    assert Pow256(3) == 0x100_0000 && Pow256(4) == 0x1_0000_0000;
  }

  /** What is put as a signed 24-bit number, in either order, is read back, for the whole range; in
      the other order the bytes come reversed. */
  lemma Int24RoundTrip(n: int)
    requires -0x80_0000 <= n < 0x80_0000
    ensures GetInt24(LE(n, 3)) == n && GetInt24(Reverse(BE(n, 3))) == n
  {
    assert Pow256(3) == 0x100_0000;
    Int24Ok(LE(n, 3));
    SignedRoundTrip(n, 3);
    ReverseTwice(LE(n, 3));
  }

  /** The unsigned macros of every width: what was put is read back in the same order, and read in
      the other order it is the number with its bytes reversed. */
  lemma UnsignedCodec(n: nat, k: nat)
    requires n < Pow256(k)
    ensures Sum(LE(n, k), k) == n && Sum(Reverse(BE(n, k)), k) == n
    ensures LE(Sum(BE(n, k), k), k) == Reverse(LE(n, k))
  {
    SumIsFromLE(LE(n, k), k);
    SumIsFromLE(BE(n, k), k);
    assert LE(n, k)[..k] == LE(n, k) && BE(n, k)[..k] == BE(n, k);
    UnsignedRoundTrip(n, k);
    ReverseTwice(LE(n, k));
    LEOfFromLE(BE(n, k));
  }
}
