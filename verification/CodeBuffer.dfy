/** The growing pcode buffer of a function under compilation (src/compiler/hbpcode.c), and jumps
    that are emitted with distance zero and patched later (src/compiler/hbmain.c). */
module CodeBuffer {
  import opened Bytes
  import Codecs
  import opened Pcode
  import opened Asm

  const CHUNK := 100

  /** What has been emitted, and whether a fatal error was reported. */
  datatype Snap = Snap(bytes: seq<byte>, fatal: bool)

  class Buffer {
    var code: array<byte>
    var pos: nat
    var fatal: bool

    /** The bytes emitted so far and the error flag. */
    ghost var now: Snap

    ghost predicate Valid()
      reads this, code
    {
      && pos <= code.Length && code.Length % CHUNK == 0
      && now.bytes == code[..pos] && now.fatal == fatal
    }

    lemma EndOfCode()
      requires Valid()
      ensures pos == |now.bytes|
    {
    }

    constructor ()
      ensures Valid() && fresh(code) && now == Snap([], false)
    {
      code, pos, fatal, now := new byte[0], 0, false, Snap([], false);
    }

    /** The buffer is reallocated `extra` bytes larger; its contents are kept. */
    method Grow(extra: nat)
      requires Valid() && extra % CHUNK == 0
      modifies this
      ensures Valid() && fresh(code) && code.Length == old(code.Length) + extra
      ensures pos == old(pos) && now == old(now)
    {
      var larger := new byte[code.Length + extra];
      forall i | 0 <= i < pos {
        larger[i] := code[i];
      }
      code := larger;
    }

    method PCode1(b: byte)
      requires Valid()
      modifies this, code
      ensures Valid() && (code == old(code) || fresh(code))
      ensures now == Snap(old(now.bytes) + [b], old(now.fatal))
    {
      if code.Length - pos < 1 {
        Grow(CHUNK);
      }
      code[pos] := b;
      pos := pos + 1;
      now := now.(bytes := now.bytes + [b]);
    }

    method PCode2(b1: byte, b2: byte)
      requires Valid()
      modifies this, code
      ensures Valid() && (code == old(code) || fresh(code))
      ensures now == Snap(old(now.bytes) + [b1, b2], old(now.fatal))
    {
      if code.Length - pos < 2 {
        Grow(CHUNK);
      }
      code[pos], code[pos + 1] := b1, b2;
      pos := pos + 2;
      now := now.(bytes := now.bytes + [b1, b2]);
    }

    method PCode3(b1: byte, b2: byte, b3: byte)
      requires Valid()
      modifies this, code
      ensures Valid() && (code == old(code) || fresh(code))
      ensures now == Snap(old(now.bytes) + [b1, b2, b3], old(now.fatal))
    {
      if code.Length - pos < 3 {
        Grow(CHUNK);
      }
      code[pos], code[pos + 1], code[pos + 2] := b1, b2, b3;
      pos := pos + 3;
      now := now.(bytes := now.bytes + [b1, b2, b3]);
    }

    method PCode4(b1: byte, b2: byte, b3: byte, b4: byte)
      requires Valid()
      modifies this, code
      ensures Valid() && (code == old(code) || fresh(code))
      ensures now == Snap(old(now.bytes) + [b1, b2, b3, b4], old(now.fatal))
    {
      if code.Length - pos < 4 {
        Grow(CHUNK);
      }
      code[pos], code[pos + 1], code[pos + 2], code[pos + 3] := b1, b2, b3, b4;
      pos := pos + 4;
      now := now.(bytes := now.bytes + [b1, b2, b3, b4]);
    }

    /** Any number of bytes: the buffer grows by whole chunks. */
    method PCodeN(bytes: seq<byte>)
      requires Valid()
      modifies this, code
      ensures Valid() && (code == old(code) || fresh(code))
      ensures now == Snap(old(now.bytes) + bytes, old(now.fatal))
    {
      if pos + |bytes| > code.Length {
        Grow((|bytes| / CHUNK + 1) * CHUNK);
      }
      var start := pos;
      forall i | 0 <= i < |bytes| {
        code[start + i] := bytes[i];
      }
      pos := pos + |bytes|;
      now := now.(bytes := now.bytes + bytes);
    }

    /** A jump with a distance to be filled in; returns the position of the distance. */
    method GenJump(op: Op) returns (at: nat)
      requires Valid() && IsJump(op)
      modifies this, code
      ensures Valid() && (code == old(code) || fresh(code))
      ensures Pending(old(now), op, now) && at == |old(now).bytes| + 1
      ensures |now.bytes| == |old(now).bytes| + 4
    {
      PCode4(Opcode(op), 0, 0, 0);
      at := pos - 3;
    }

    /** Fills in the distance from the opcode before `from` to `to`; a distance of more than 24
        bits is a fatal error, and nothing is written. */
    method JumpThere(from: nat, to: nat)
      requires Valid() && 1 <= from && from + 3 <= pos && from + 3 <= to
      modifies this`fatal, this`now, code
      ensures Valid()
      ensures var over := to - from - 3;
        now == if over + 4 <= MAX_JUMP then Snap(Patched(old(now.bytes), from, over), old(now.fatal))
               else Snap(old(now.bytes), true)
    {
      var offset := to - from + 1;
      if offset <= MAX_JUMP {
        ghost var was := code[..];
        Codecs.PutLE24(code, from, offset);
        WrittenPrefix(was, pos, from, LE(offset, 3));
        now := now.(bytes := Patched(now.bytes, from, to - from - 3));
      } else {
        fatal, now := true, now.(fatal := true);
      }
    }

    method JumpHere(from: nat)
      requires Valid() && 1 <= from && from + 3 <= |now.bytes|
      modifies this`fatal, this`now, code
      ensures Valid() && Patch(old(now), from, now) && |now.bytes| == |old(now).bytes|
    {
      JumpThere(from, pos);
    }

    /** Replaces an opcode that has been emitted. */
    method Overwrite(at: nat, op: Op)
      requires Valid() && at < |now.bytes|
      modifies code, this`now
      ensures Valid() && now == Snap(old(now).bytes[at := Opcode(op)], old(now).fatal)
    {
      code[at] := Opcode(op);
      now := now.(bytes := now.bytes[at := Opcode(op)]);
    }
  }

  // ----- what the methods do, on values -----

  /** The distance after an opcode, replaced by that of a jump over the next `over` bytes. */
  function Patched(s: seq<byte>, from: nat, over: nat): (r: seq<byte>)
    requires from + 3 <= |s|
    ensures |r| == |s|
  {
    s[..from] + LE(over + 4, 3) + s[from + 3..]
  }

  lemma WrittenPrefix(s: seq<byte>, n: nat, at: nat, v: seq<byte>)
    requires at + |v| <= n <= |s|
    ensures Codecs.Written(s, at, v)[..n] == s[..n][..at] + v + s[..n][at + |v|..]
  {
  }

  predicate Patch(s: Snap, from: nat, t: Snap)
  {
    && from + 3 <= |s.bytes|
    && var over := |s.bytes| - from - 3;
       t == if over + 4 <= MAX_JUMP then Snap(Patched(s.bytes, from, over), s.fatal) else Snap(s.bytes, true)
  }

  // ----- emitted code -----

  /** Between `s` and `t` exactly the code of `a` was emitted; a jump in it that is too long is the
      only thing that reports a fatal error. What was emitted before is never touched. */
  predicate Emits(s: Snap, a: Asm, t: Snap)
  {
    && |t.bytes| == |s.bytes| + |CodeOf(a)|
    && s.bytes <= t.bytes
    && t.fatal == (s.fatal || !JumpsFit(a))
    && (JumpsFit(a) ==> t.bytes == s.bytes + CodeOf(a))
  }

  lemma EmitsNothing(s: Snap)
    ensures Emits(s, Skip, s)
  {
    assert s.bytes + [] == s.bytes;
  }

  lemma EmitsGrows(s: Snap, a: Asm, t: Snap)
    requires Emits(s, a, t)
    ensures |t.bytes| == |s.bytes| + |CodeOf(a)|
  {
  }

  lemma EmitsCat(s: Snap, a: Asm, t: Snap, b: Asm, u: Snap)
    requires Emits(s, a, t) && Emits(t, b, u)
    ensures Emits(s, Cat(a, b), u)
  {
    hide Encode, Jump;
    if JumpsFit(a) && JumpsFit(b) {
      assert (s.bytes + CodeOf(a)) + CodeOf(b) == s.bytes + (CodeOf(a) + CodeOf(b));
    }
  }

  /** A pending jump: emitted, its distance not yet known. */
  predicate Pending(s: Snap, op: Op, t: Snap)
  {
    t == Snap(s.bytes + [Opcode(op), 0, 0, 0], s.fatal)
  }

  lemma PatchGives(pre: seq<byte>, op: Op, body: seq<byte>)
    requires IsJump(op)
    ensures Patched(pre + [Opcode(op), 0, 0, 0] + body, |pre| + 1, |body|) == pre + Jump(op, |body|) + body
  {
    hide Opcode, OpOf;
    var s := pre + [Opcode(op), 0, 0, 0] + body;
    assert s[..|pre| + 1] == pre + [Opcode(op)];
    assert s[|pre| + 4..] == body;
    assert Jump(op, |body|) == [Opcode(op)] + LE(|body| + 4, 3);
  }

  /** A jump patched after the code it jumps over. */
  lemma OverEmits(s: Snap, op: Op, t: Snap, a: Asm, u: Snap, v: Snap)
    requires (op.OJumpFalse? || op.OJumpTrue?) && Pending(s, op, t) && Emits(t, a, u) && Patch(u, |s.bytes| + 1, v)
    ensures Emits(s, if op.OJumpFalse? then When(a) else Unless(a), v)
  {
    hide Opcode, Encode, Patched, Jump;
    PatchGives(s.bytes, op, CodeOf(a));
    PatchKeeps(u.bytes, |s.bytes|, |CodeOf(a)|);
    var j := Jump(op, |CodeOf(a)|);
    assert (s.bytes + j) + CodeOf(a) == s.bytes + (j + CodeOf(a));
  }

  /** Patching keeps the length and everything before the opcode. */
  lemma PatchKeeps(b: seq<byte>, n: nat, over: nat)
    requires n + 4 <= |b|
    ensures |Patched(b, n + 1, over)| == |b| && b[..n] <= Patched(b, n + 1, over)
  {
  }

  /** Two pending jumps, each patched when its target is reached. */
  lemma IfElseEmits(s0: Snap, s1: Snap, x: Asm, s2: Snap, s3: Snap, s4: Snap, y: Asm, s5: Snap, s6: Snap)
    requires Pending(s0, OJumpFalse, s1) && Emits(s1, x, s2) && Pending(s2, OJump, s3)
    requires Patch(s3, |s0.bytes| + 1, s4) && Emits(s4, y, s5) && Patch(s5, |s2.bytes| + 1, s6)
    ensures Emits(s0, IfElse(x, y), s6)
  {
    hide Encode, Patched, Jump, Opcode, CodeOf;
    IfElseUnfold(x, y);
    var n, k := |CodeOf(x)|, |CodeOf(y)|;
    assert |s3.bytes| == |s0.bytes| + 8 + n;
    PatchKeeps(s3.bytes, |s0.bytes|, n + 4);
    PatchKeeps(s5.bytes, |s2.bytes|, k);
    IfElsePrefix(s0.bytes, s2.bytes, s3.bytes, s4.bytes, s5.bytes, s6.bytes);
    if JumpsFit(IfElse(x, y)) {
      IfElseBytes(s0.bytes, s3.bytes, CodeOf(x), s4.bytes, CodeOf(y), s5.bytes, s6.bytes);
    }
  }

  lemma IfElseUnfold(x: Asm, y: Asm)
    ensures var jf, jt := Jump(OJumpFalse, |CodeOf(x)| + 4), Jump(OJump, |CodeOf(y)|);
      CodeOf(IfElse(x, y)) == jf + CodeOf(x) + jt + CodeOf(y)
    ensures |CodeOf(IfElse(x, y))| == 8 + |CodeOf(x)| + |CodeOf(y)|
  {
    hide Jump, Encode;
  }

  lemma IfElsePrefix(b0: seq<byte>, b2: seq<byte>, b3: seq<byte>, b4: seq<byte>, b5: seq<byte>, b6: seq<byte>)
    requires |b0| + 4 <= |b2| && b0 <= b2 && b2 <= b3 && |b3| == |b4| && b3[..|b0|] <= b4
    requires b4 <= b5 && |b2| <= |b5| && b5[..|b2|] <= b6
    ensures b0 <= b6
  {
  }

  lemma IfElseBytes(b0: seq<byte>, b3: seq<byte>, x: seq<byte>, b4: seq<byte>, y: seq<byte>, b5: seq<byte>, b6: seq<byte>)
    requires b3 == b0 + [Opcode(OJumpFalse), 0, 0, 0] + x + [Opcode(OJump), 0, 0, 0]
    requires b4 == Patched(b3, |b0| + 1, |x| + 4) && b5 == b4 + y
    requires b6 == Patched(b5, |b0| + 4 + |x| + 1, |y|)
    ensures b6 == b0 + (Jump(OJumpFalse, |x| + 4) + x + Jump(OJump, |y|) + y)
  {
    hide Encode, Patched, Jump, Opcode;
    var jf, jt, hole := Jump(OJumpFalse, |x| + 4), Jump(OJump, |y|), [Opcode(OJump), 0, 0, 0];
    assert b3 == b0 + [Opcode(OJumpFalse), 0, 0, 0] + (x + hole);
    PatchGives(b0, OJumpFalse, x + hole);
    assert b5 == (b0 + jf + x) + hole + y;
    PatchGives(b0 + jf + x, OJump, y);
    assert b6 == (b0 + jf + x) + jt + y;
  }

  /** Turning a pending jump into another kind leaves it pending. */
  lemma Retarget(s: Snap, op: Op, t: Snap, op2: Op, u: Snap)
    requires Pending(s, op, t) && u == Snap(t.bytes[|s.bytes| := Opcode(op2)], t.fatal)
    ensures Pending(s, op2, u)
  {
    hide Opcode;
  }

  /** Structures with the same bytes and the same long jumps. */
  predicate Same(a: Asm, b: Asm)
  {
    CodeOf(a) == CodeOf(b) && JumpsFit(a) == JumpsFit(b)
  }

  lemma Regroup(a: Asm, b: Asm, c: Asm)
    ensures Same(Cat(a, Cat(b, c)), Cat(Cat(a, b), c))
  {
    hide Encode, Jump;
    assert CodeOf(Cat(b, c)) == CodeOf(b) + CodeOf(c) && JumpsFit(Cat(b, c)) == (JumpsFit(b) && JumpsFit(c));
    assert CodeOf(Cat(a, b)) == CodeOf(a) + CodeOf(b) && JumpsFit(Cat(a, b)) == (JumpsFit(a) && JumpsFit(b));
    assert CodeOf(a) + (CodeOf(b) + CodeOf(c)) == (CodeOf(a) + CodeOf(b)) + CodeOf(c);
  }

  lemma NoTail(a: Asm)
    ensures Same(Cat(a, Skip), a) && Same(Cat(Skip, a), a)
  {
    assert CodeOf(a) + [] == CodeOf(a) == [] + CodeOf(a);
  }

  lemma EmitsSame(s: Snap, a: Asm, b: Asm, t: Snap)
    requires Emits(s, a, t) && Same(a, b)
    ensures Emits(s, b, t)
  {
  }

  lemma Emits3(s0: Snap, a: Asm, s1: Snap, b: Asm, s2: Snap, c: Asm, s3: Snap)
    requires Emits(s0, a, s1) && Emits(s1, b, s2) && Emits(s2, c, s3)
    ensures Emits(s0, Cat(a, Cat(b, c)), s3)
  {
    hide *;
    EmitsCat(s1, b, s2, c, s3);
    EmitsCat(s0, a, s1, Cat(b, c), s3);
  }

  lemma Emits4(s0: Snap, a: Asm, s1: Snap, b: Asm, s2: Snap, c: Asm, s3: Snap, d: Asm, s4: Snap)
    requires Emits(s0, a, s1) && Emits(s1, b, s2) && Emits(s2, c, s3) && Emits(s3, d, s4)
    ensures Emits(s0, Cat(a, Cat(b, Cat(c, d))), s4)
  {
    hide *;
    Emits3(s1, b, s2, c, s3, d, s4);
    EmitsCat(s0, a, s1, Cat(b, Cat(c, d)), s4);
  }

  lemma Emits5(s0: Snap, a: Asm, s1: Snap, b: Asm, s2: Snap, c: Asm, s3: Snap, d: Asm, s4: Snap, e: Asm, s5: Snap)
    requires Emits(s0, a, s1) && Emits(s1, b, s2) && Emits(s2, c, s3) && Emits(s3, d, s4) && Emits(s4, e, s5)
    ensures Emits(s0, Cat(a, Cat(b, Cat(c, Cat(d, e)))), s5)
  {
    hide *;
    Emits4(s1, b, s2, c, s3, d, s4, e, s5);
    EmitsCat(s0, a, s1, Cat(b, Cat(c, Cat(d, e))), s5);
  }

  lemma Emits6(s0: Snap, a: Asm, s1: Snap, b: Asm, s2: Snap, c: Asm, s3: Snap, d: Asm, s4: Snap, e: Asm, s5: Snap,
               g: Asm, s6: Snap)
    requires Emits(s0, a, s1) && Emits(s1, b, s2) && Emits(s2, c, s3) && Emits(s3, d, s4) && Emits(s4, e, s5)
    requires Emits(s5, g, s6)
    ensures Emits(s0, Cat(a, Cat(b, Cat(c, Cat(d, Cat(e, g))))), s6)
  {
    hide *;
    Emits5(s1, b, s2, c, s3, d, s4, e, s5, g, s6);
    EmitsCat(s0, a, s1, Cat(b, Cat(c, Cat(d, Cat(e, g)))), s6);
  }

  /** The inverted jump of a statement-level `iif` whose true branch emitted nothing. */
  lemma InvertEmits(s1: Snap, s2: Snap, yes: Asm, s3: Snap, s4: Snap, no: Asm, s5: Snap, s6: Snap)
    requires Pending(s1, OJumpFalse, s2) && Emits(s2, yes, s3) && |s3.bytes| == |s2.bytes|
    requires s4 == Snap(s3.bytes[|s1.bytes| := Opcode(OJumpTrue)], s3.fatal)
    requires Emits(s4, no, s5) && Patch(s5, |s1.bytes| + 1, s6)
    ensures Emits(s1, Branch(yes, no), s6)
  {
    hide Opcode, Patched, Encode, Jump;
    NoBytesFit(yes);
    Retarget(s1, OJumpFalse, s2, OJumpTrue, s4);
    OverEmits(s1, OJumpTrue, s4, no, s5, s6);
  }

  lemma BranchKeeps(yes: Asm, no: Asm)
    requires |CodeOf(yes)| != 0
    ensures Branch(yes, no) == IfElse(yes, no)
  {
  }

  lemma {:induction false} NoBytesFit(a: Asm)
    requires CodeOf(a) == []
    ensures JumpsFit(a)
  {
    hide Encode, Jump;
    if a.Cat? {
      NoBytesFit(a.a);
      NoBytesFit(a.b);
    }
  }
}
