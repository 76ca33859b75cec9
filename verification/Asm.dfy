/** Structured pcode: the shapes the code generator builds out of instructions and patched jumps,
    their bytes, and the proof that running the bytes does what the structure says. */
module Asm {
  import opened Wrappers
  import opened Bytes
  import opened Runtime
  import opened Pcode

  /** `When` and `Unless` jump over their body; all three forms consume the tested value. */
  datatype Asm =
    | Skip
    | Ins(i: Instr)
    | Cat(a: Asm, b: Asm)
    | IfElse(yes: Asm, no: Asm)
    | When(body: Asm)
    | Unless(body: Asm)

  const MAX_JUMP := 0x7FFFFF

  /** A jump over the next `over` bytes. */
  function Jump(op: Op, over: nat): (s: seq<byte>)
    requires IsJump(op)
    ensures |s| == 4
  {
    Encode(Instr(op, 4 + over, 0))
  }

  function CodeOf(a: Asm): seq<byte>
  {
    match a
    case Skip => []
    case Ins(i) => Encode(i)
    case Cat(x, y) => CodeOf(x) + CodeOf(y)
    case IfElse(x, y) =>
      Jump(OJumpFalse, |CodeOf(x)| + 4) + CodeOf(x) + Jump(OJump, |CodeOf(y)|) + CodeOf(y)
    case When(x) => Jump(OJumpFalse, |CodeOf(x)|) + CodeOf(x)
    case Unless(x) => Jump(OJumpTrue, |CodeOf(x)|) + CodeOf(x)
  }

  predicate IsJump(op: Op)
  {
    op.OJump? || op.OJumpFalse? || op.OJumpTrue?
  }

  /** Operands are in range and every jump distance fits in 24 bits. */
  ghost predicate Sound(a: Asm)
  {
    OperandsFit(a) && JumpsFit(a)
  }

  predicate JumpsFit(a: Asm)
  {
    match a
    case Skip => true
    case Ins(_) => true
    case Cat(x, y) => JumpsFit(x) && JumpsFit(y)
    case IfElse(x, y) => JumpsFit(x) && JumpsFit(y) && |CodeOf(x)| + 8 <= MAX_JUMP && |CodeOf(y)| + 4 <= MAX_JUMP
    case When(x) => JumpsFit(x) && |CodeOf(x)| + 4 <= MAX_JUMP
    case Unless(x) => JumpsFit(x) && |CodeOf(x)| + 4 <= MAX_JUMP
  }

  /** Code of less than eight megabytes has no jump that is too long. */
  lemma {:induction false} ShortCodeFits(a: Asm)
    requires |CodeOf(a)| < 0x80_0000
    ensures JumpsFit(a)
  {
    match a
    case Skip =>
    case Ins(_) =>
    case Cat(x, y) =>
      ShortCodeFits(x);
      ShortCodeFits(y);
    case IfElse(x, y) =>
      ShortCodeFits(x);
      ShortCodeFits(y);
    case When(x) => ShortCodeFits(x);
    case Unless(x) => ShortCodeFits(x);
  }

  ghost predicate OperandsFit(a: Asm)
  {
    match a
    case Skip => true
    case Ins(i) => Fits(i) && !IsJump(i.op)
    case Cat(x, y) => OperandsFit(x) && OperandsFit(y)
    case IfElse(x, y) => OperandsFit(x) && OperandsFit(y)
    case When(x) => OperandsFit(x)
    case Unless(x) => OperandsFit(x)
  }

  // ----- meaning -----

  datatype Test = Test(b: bool, s: State)

  function PopTest(s: State): Option<Test>
  {
    match s.stack
    case Item(Val(Logical(b)), rest) => Some(Test(b, s.(stack := rest)))
    case _ => None
  }

  function Den(m: Sem, a: Asm, s: State): Option<State>
  {
    match a
    case Skip => Some(s)
    case Ins(i) => Exec(m, i, s)
    case Cat(x, y) =>
      var s' :- Den(m, x, s);
      Den(m, y, s')
    case IfElse(x, y) =>
      var t :- PopTest(s);
      if t.b then Den(m, x, t.s) else Den(m, y, t.s)
    case When(x) =>
      var t :- PopTest(s);
      if t.b then Den(m, x, t.s) else Some(t.s)
    case Unless(x) =>
      var t :- PopTest(s);
      if t.b then Some(t.s) else Den(m, x, t.s)
  }

  function At2(p: int, r: Option<State>): Option<Config>
  {
    var s :- r;
    Some(Config(p, s))
  }

  // ----- the bytes do what the structure says -----

  lemma AtParts(code: seq<byte>, p: int, s: seq<byte>, t: seq<byte>)
    requires At(code, p, s + t)
    ensures At(code, p, s) && At(code, p + |s|, t)
  {
    assert code[p..p + |s|] == (s + t)[..|s|] == s;
    assert code[p + |s|..p + |s| + |t|] == (s + t)[|s|..] == t;
  }

  lemma AtFour(code: seq<byte>, p: int, s: seq<byte>, t: seq<byte>, u: seq<byte>, v: seq<byte>)
    requires At(code, p, s + t + u + v)
    ensures At(code, p, s) && At(code, p + |s|, t) && At(code, p + |s| + |t|, u)
    ensures At(code, p + |s| + |t| + |u|, v)
  {
    hide At;
    AtParts(code, p, s + t + u, v);
    AtParts(code, p, s + t, u);
    AtParts(code, p, s, t);
  }

  lemma JumpFits(op: Op, over: nat)
    requires IsJump(op) && over + 4 <= MAX_JUMP
    ensures Fits(Instr(op, 4 + over, 0))
  {
    assert Pow256(3) == 0x1000000;
  }

  lemma JumpDecodes(code: seq<byte>, p: int, op: Op, over: nat)
    requires IsJump(op) && At(code, p, Jump(op, over)) && over + 4 <= MAX_JUMP
    ensures Decode(code, p) == Some(Instr(op, 4 + over, 0))
  {
    hide Decode, At, Encode;
    JumpFits(op, over);
    DecodeEncode(code, p, Instr(op, 4 + over, 0));
  }

  lemma StepPlain(m: Sem, code: seq<byte>, p: int, i: Instr, s: State)
    requires At(code, p, Encode(i)) && Fits(i) && !IsJump(i.op)
    ensures Step(m, code, Config(p, s)) == At2(p + Size(i.op), Exec(m, i, s))
  {
    hide Exec, Decode, Encode, Fits, At;
    DecodeEncode(code, p, i);
  }

  lemma StepJump(m: Sem, code: seq<byte>, p: int, op: Op, over: nat, s: State)
    requires IsJump(op) && At(code, p, Jump(op, over)) && over + 4 <= MAX_JUMP
    ensures op.OJump? ==> Step(m, code, Config(p, s)) == Some(Config(p + 4 + over, s))
    ensures !op.OJump? && PopTest(s).None? ==> Step(m, code, Config(p, s)) == None
    ensures !op.OJump? && PopTest(s).Some? ==>
      Step(m, code, Config(p, s)) ==
        Some(Config(if PopTest(s).value.b == op.OJumpTrue? then p + 4 + over else p + 4, PopTest(s).value.s))
  {
    hide Exec, Decode, At, Jump, OpOf, Opcode;
    JumpDecodes(code, p, op, over);
  }

  /** Code placed anywhere in any program runs to its end, or fails, exactly as its structure
      says. In particular emitted code can be moved freely. */
  lemma {:induction false} Runs(m: Sem, code: seq<byte>, p: int, a: Asm, s: State)
    requires At(code, p, CodeOf(a)) && Sound(a)
    ensures Yields(m, code, Config(p, s), At2(p + |CodeOf(a)|, Den(m, a, s)))
    decreases a, 1
  {
    hide Step, Exec, Yields, At;
    match a
    case Skip => YieldsNow(m, code, Config(p, s));
    case Ins(i) =>
      StepPlain(m, code, p, i, s);
      YieldsStep(m, code, Config(p, s));
    case Cat(x, y) => RunsThen(m, code, p, a, s);
    case IfElse(x, y) => RunsIfElse(m, code, p, a, s);
    case When(x) => RunsOver(m, code, p, OJumpFalse, a, s);
    case Unless(x) => RunsOver(m, code, p, OJumpTrue, a, s);
  }

  lemma {:induction false} RunsThen(m: Sem, code: seq<byte>, p: int, a: Asm, s: State)
    requires a.Cat? && At(code, p, CodeOf(a)) && Sound(a)
    ensures Yields(m, code, Config(p, s), At2(p + |CodeOf(a)|, Den(m, a, s)))
    decreases a, 0
  {
    hide Step, Exec, Yields, At, CodeOf, Encode;
    CatParts(code, p, a);
    Runs(m, code, p, a.a, s);
    var r := Den(m, a.a, s);
    if r.Some? {
      var mid := p + |CodeOf(a.a)|;
      Runs(m, code, mid, a.b, r.value);
      YieldsThen(m, code, Config(p, s), Config(mid, r.value), At2(mid + |CodeOf(a.b)|, Den(m, a.b, r.value)));
    }
  }

  lemma CatParts(code: seq<byte>, p: int, a: Asm)
    requires a.Cat? && At(code, p, CodeOf(a))
    ensures |CodeOf(a)| == |CodeOf(a.a)| + |CodeOf(a.b)|
    ensures At(code, p, CodeOf(a.a)) && At(code, p + |CodeOf(a.a)|, CodeOf(a.b))
  {
    hide At, Encode, Jump;
    AtParts(code, p, CodeOf(a.a), CodeOf(a.b));
  }

  lemma IfElseParts(code: seq<byte>, p: int, a: Asm)
    requires a.IfElse? && At(code, p, CodeOf(a))
    ensures var n, k := |CodeOf(a.yes)|, |CodeOf(a.no)|;
      && |CodeOf(a)| == 8 + n + k
      && At(code, p, Jump(OJumpFalse, n + 4)) && At(code, p + 4, CodeOf(a.yes))
      && At(code, p + 4 + n, Jump(OJump, k)) && At(code, p + 8 + n, CodeOf(a.no))
  {
    hide At, Jump;
    var x, y := CodeOf(a.yes), CodeOf(a.no);
    AtFour(code, p, Jump(OJumpFalse, |x| + 4), x, Jump(OJump, |y|), y);
  }

  lemma {:induction false} RunsIfElse(m: Sem, code: seq<byte>, p: int, a: Asm, s: State)
    requires a.IfElse? && At(code, p, CodeOf(a)) && Sound(a)
    ensures Yields(m, code, Config(p, s), At2(p + |CodeOf(a)|, Den(m, a, s)))
    decreases a, 0
  {
    hide Step, Exec, Yields, At, CodeOf, Encode;
    IfElseParts(code, p, a);
    var c, n, k := Config(p, s), |CodeOf(a.yes)|, |CodeOf(a.no)|;
    StepJump(m, code, p, OJumpFalse, n + 4, s);
    YieldsStep(m, code, c);
    var t := PopTest(s);
    if t.None? {
    } else if t.value.b {
      Runs(m, code, p + 4, a.yes, t.value.s);
      var r := Den(m, a.yes, t.value.s);
      YieldsThen(m, code, c, Config(p + 4, t.value.s), At2(p + 4 + n, r));
      if r.Some? {
        var c' := Config(p + 4 + n, r.value);
        StepJump(m, code, c'.pc, OJump, k, r.value);
        YieldsStep(m, code, c');
        YieldsThen(m, code, c, c', Some(Config(p + 8 + n + k, r.value)));
      }
    } else {
      Runs(m, code, p + 8 + n, a.no, t.value.s);
      YieldsThen(m, code, c, Config(p + 8 + n, t.value.s), At2(p + 8 + n + k, Den(m, a.no, t.value.s)));
    }
  }

  lemma OverParts(code: seq<byte>, p: int, a: Asm)
    requires (a.When? || a.Unless?) && At(code, p, CodeOf(a))
    ensures var n := |CodeOf(a.body)|;
      && |CodeOf(a)| == 4 + n
      && At(code, p, Jump(if a.When? then OJumpFalse else OJumpTrue, n)) && At(code, p + 4, CodeOf(a.body))
  {
    hide At, Jump;
    AtParts(code, p, Jump(if a.When? then OJumpFalse else OJumpTrue, |CodeOf(a.body)|), CodeOf(a.body));
  }

  lemma {:induction false} RunsOver(m: Sem, code: seq<byte>, p: int, op: Op, a: Asm, s: State)
    requires (op.OJumpFalse? && a.When?) || (op.OJumpTrue? && a.Unless?)
    requires At(code, p, CodeOf(a)) && Sound(a)
    ensures Yields(m, code, Config(p, s), At2(p + |CodeOf(a)|, Den(m, a, s)))
    decreases a, 0
  {
    hide Step, Exec, Yields, At, CodeOf, Encode;
    var n := |CodeOf(a.body)|;
    OverParts(code, p, a);
    StepJump(m, code, p, op, n, s);
    YieldsStep(m, code, Config(p, s));
    var t := PopTest(s);
    if t.Some? && t.value.b == op.OJumpFalse? {
      Runs(m, code, p + 4, a.body, t.value.s);
      YieldsThen(m, code, Config(p, s), Config(p + 4, t.value.s), At2(p + 4 + n, Den(m, a.body, t.value.s)));
    }
  }

  // ----- jumps stay inside the emitted code and hit instruction starts -----

  /** Reading whole instructions from `p` on, one gets to `q`. */
  ghost predicate Boundary(code: seq<byte>, p: int, q: int)
    decreases q - p
  {
    p == q || (p < q && Decode(code, p).Some? && Boundary(code, p + Size(Decode(code, p).value.op), q))
  }

  ghost predicate JumpAt(code: seq<byte>, q: int)
  {
    Decode(code, q).Some? && IsJump(Decode(code, q).value.op)
  }

  /** The jump at `q`, if there is one, goes forward, not beyond `top`, to an instruction start. */
  ghost predicate GoodJump(code: seq<byte>, lo: int, q: int, top: int)
  {
    Boundary(code, lo, q) && JumpAt(code, q) ==>
      var t := q + Decode(code, q).value.x;
      q < t <= top && Boundary(code, lo, t)
  }

  /** Every jump met between `lo` and `hi` goes forward, not beyond `top`, to an instruction start. */
  ghost predicate Land(code: seq<byte>, lo: int, hi: int, top: int)
  {
    && lo <= hi <= top && Boundary(code, lo, hi)
    && forall q :: lo <= q < hi ==> GoodJump(code, lo, q, top)
  }

  lemma {:induction false} BoundaryJoin(code: seq<byte>, p: int, q: int, r: int)
    requires Boundary(code, p, q) && Boundary(code, q, r)
    ensures Boundary(code, p, r)
    decreases q - p
  {
    hide Decode;
    if p != q {
      BoundaryJoin(code, p + Size(Decode(code, p).value.op), q, r);
    }
  }

  lemma {:induction false} BoundarySplit(code: seq<byte>, p: int, q: int, r: int)
    requires Boundary(code, p, q) && Boundary(code, p, r) && q <= r
    ensures Boundary(code, q, r)
    decreases q - p
  {
    hide Decode;
    if p != q {
      BoundarySplit(code, p + Size(Decode(code, p).value.op), q, r);
    }
  }

  lemma GoodJumpFrom(code: seq<byte>, lo: int, mid: int, q: int, top: int)
    requires Boundary(code, lo, mid) && mid <= q && GoodJump(code, mid, q, top)
    ensures GoodJump(code, lo, q, top)
  {
    hide Decode;
    if Boundary(code, lo, q) && JumpAt(code, q) {
      BoundarySplit(code, lo, mid, q);
      BoundaryJoin(code, lo, mid, q + Decode(code, q).value.x);
    }
  }

  lemma LandJoin(code: seq<byte>, lo: int, mid: int, hi: int, top: int)
    requires Land(code, lo, mid, top) && Land(code, mid, hi, top)
    ensures Land(code, lo, hi, top)
  {
    hide Decode, GoodJump;
    BoundaryJoin(code, lo, mid, hi);
    forall q | mid <= q < hi
      ensures GoodJump(code, lo, q, top)
    {
      GoodJumpFrom(code, lo, mid, q, top);
    }
  }

  lemma LandOne(code: seq<byte>, p: int, i: Instr, top: int)
    requires Decode(code, p) == Some(i) && p + Size(i.op) <= top
    requires IsJump(i.op) ==> 4 <= i.x <= top - p && Boundary(code, p + 4, p + i.x)
    ensures Land(code, p, p + Size(i.op), top)
  {
    hide Decode;
    var next := p + Size(i.op);
    assert Boundary(code, next, next);
    forall q | p <= q < next
      ensures GoodJump(code, p, q, top)
    {
      assert Boundary(code, p, q) ==> q == p || Boundary(code, next, q);
    }
  }

  lemma LandJump(code: seq<byte>, p: int, op: Op, over: nat, top: int)
    requires IsJump(op) && At(code, p, Jump(op, over)) && over + 4 <= MAX_JUMP
    requires p + 4 + over <= top && Boundary(code, p + 4, p + 4 + over)
    ensures Land(code, p, p + 4, top)
  {
    hide Decode, Boundary, At, Jump;
    JumpDecodes(code, p, op, over);
    LandOne(code, p, Instr(op, 4 + over, 0), top);
  }

  /** Every relative jump in emitted code, however deeply nested, goes forward to an instruction
      inside that code or to its end. */
  lemma {:induction false} JumpsLand(code: seq<byte>, p: int, a: Asm, top: int)
    requires At(code, p, CodeOf(a)) && Sound(a) && p + |CodeOf(a)| <= top
    ensures Land(code, p, p + |CodeOf(a)|, top)
    decreases a, 1
  {
    hide Land, Decode, At, Boundary, Encode, Jump, Fits;
    match a
    case Skip => LandNothing(code, p, top);
    case Ins(i) => InsLands(code, p, i, top);
    case Cat(_, _) => CatLands(code, p, a, top);
    case IfElse(_, _) => IfElseLands(code, p, a, top);
    case When(_) => OverLands(code, p, a, top);
    case Unless(_) => OverLands(code, p, a, top);
  }

  lemma {:induction false} CatLands(code: seq<byte>, p: int, a: Asm, top: int)
    requires a.Cat? && At(code, p, CodeOf(a)) && Sound(a) && p + |CodeOf(a)| <= top
    ensures Land(code, p, p + |CodeOf(a)|, top)
    decreases a, 0
  {
    hide Land, Decode, At, Boundary, Jump, CodeOf;
    var mid := p + |CodeOf(a.a)|;
    CatParts(code, p, a);
    JumpsLand(code, p, a.a, top);
    JumpsLand(code, mid, a.b, top);
    LandJoin(code, p, mid, p + |CodeOf(a)|, top);
  }

  lemma InsLands(code: seq<byte>, p: int, i: Instr, top: int)
    requires At(code, p, Encode(i)) && Fits(i) && !IsJump(i.op) && p + Size(i.op) <= top
    ensures Land(code, p, p + Size(i.op), top)
  {
    hide Land, Decode, At, Boundary, Encode, Fits;
    DecodeEncode(code, p, i);
    LandOne(code, p, i, top);
  }

  lemma LandNothing(code: seq<byte>, p: int, top: int)
    requires p <= top
    ensures Land(code, p, p, top)
  {
    assert Boundary(code, p, p);
  }

  lemma LandBoundary(code: seq<byte>, lo: int, hi: int, top: int)
    requires Land(code, lo, hi, top)
    ensures Boundary(code, lo, hi)
  {
  }

  lemma {:induction false} OverLands(code: seq<byte>, p: int, a: Asm, top: int)
    requires a.When? || a.Unless?
    requires At(code, p, CodeOf(a)) && Sound(a) && p + |CodeOf(a)| <= top
    ensures Land(code, p, p + |CodeOf(a)|, top)
    decreases a, 0
  {
    hide Land, Decode, At, Boundary, Jump, CodeOf;
    OverParts(code, p, a);
    var n := |CodeOf(a.body)|;
    JumpsLand(code, p + 4, a.body, top);
    LandBoundary(code, p + 4, p + 4 + n, top);
    LandJump(code, p, if a.When? then OJumpFalse else OJumpTrue, n, top);
    LandJoin(code, p, p + 4, p + 4 + n, top);
  }

  lemma {:induction false} IfElseLands(code: seq<byte>, p: int, a: Asm, top: int)
    requires a.IfElse? && At(code, p, CodeOf(a)) && Sound(a) && p + |CodeOf(a)| <= top
    ensures Land(code, p, p + |CodeOf(a)|, top)
    decreases a, 0
  {
    hide Land, Decode, At, Boundary, Jump, CodeOf;
    IfElseParts(code, p, a);
    var n, k := |CodeOf(a.yes)|, |CodeOf(a.no)|;
    var px, pj, py := p + 4, p + 4 + n, p + 8 + n;
    JumpsLand(code, px, a.yes, top);
    JumpsLand(code, py, a.no, top);
    LandBoundary(code, py, py + k, top);
    LandJump(code, pj, OJump, k, top);
    LandJoin(code, px, pj, py, top);
    LandBoundary(code, px, py, top);
    LandJump(code, p, OJumpFalse, n + 4, top);
    LandJoin(code, p, px, py, top);
    LandJoin(code, p, py, py + k, top);
  }

  // ----- the inverted jump -----

  /** What a statement-level `iif` emits: when the true branch left no bytes behind, the jump
      already emitted over it is turned into its opposite. */
  function Branch(yes: Asm, no: Asm): Asm
  {
    if CodeOf(yes) == [] then Unless(no) else IfElse(yes, no)
  }

  lemma {:induction false} NoBytesNoEffect(m: Sem, a: Asm, s: State)
    requires CodeOf(a) == []
    ensures Den(m, a, s) == Some(s)
  {
    hide Exec;
    match a
    case Cat(x, y) =>
      NoBytesNoEffect(m, x, s);
      NoBytesNoEffect(m, y, s);
    case _ =>
  }

  /** Overwriting the opcode keeps the meaning. */
  lemma BranchMeansIfElse(m: Sem, yes: Asm, no: Asm, s: State)
    ensures Den(m, Branch(yes, no), s) == Den(m, IfElse(yes, no), s)
  {
    hide Exec;
    if CodeOf(yes) == [] && PopTest(s).Some? {
      NoBytesNoEffect(m, yes, PopTest(s).value.s);
    }
  }
}
