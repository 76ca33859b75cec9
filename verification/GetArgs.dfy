/** The rewriting of `_GET_( a[ i1 ]...[ in ], ... )` (include/hbexpra.c): the array goes into a block,
    its indexes into a literal array that becomes the sixth argument. */
module GetArgs {
  import opened Expr

  /** An argument of the call; a block holds the expression it evaluates. */
  datatype Arg = Plain(e: Expr) | Text(s: string) | Block(e: Expr)

  // ----- the spine of subscripts -----

  function SpineBase(e: Expr): Expr
  {
    if e.EIndex? then SpineBase(e.base) else e
  }

  /** The indexes in source order. */
  function SpineIndexes(e: Expr): seq<Expr>
  {
    if e.EIndex? then SpineIndexes(e.base) + [e.index] else []
  }

  function Subscripted(base: Expr, indexes: seq<Expr>): Expr
  {
    if indexes == [] then base
    else EIndex(Subscripted(base, indexes[..|indexes| - 1]), indexes[|indexes| - 1])
  }

  /** Applying the collected indexes to the base gives back the same element expression. */
  lemma {:induction false} SpineKeepsElement(e: Expr)
    ensures Subscripted(SpineBase(e), SpineIndexes(e)) == e && !SpineBase(e).EIndex?
  {
    if e.EIndex? {
      SpineKeepsElement(e.base);
      assert (SpineIndexes(e.base) + [e.index])[..|SpineIndexes(e.base)|] == SpineIndexes(e.base);
    }
  }

  /** Walks the subscripts from the last to the first, putting each index in front of the list. */
  method CollectIndexes(e: Expr) returns (base: Expr, indexes: seq<Expr>)
    requires e.EIndex?
    ensures base == SpineBase(e) && indexes == SpineIndexes(e)
  {
    base, indexes := e.base, [e.index];
    while base.EIndex?
      invariant SpineBase(base) == SpineBase(e) && SpineIndexes(base) + indexes == SpineIndexes(e)
      decreases base
    {
      indexes, base := [base.index] + indexes, base.base;
    }
  }

  // ----- the text argument -----

  predicate NoBracket(s: string, from: nat, to: nat)
    requires to <= |s|
  {
    forall i :: from <= i < to ==> s[i] != '['
  }

  /** The text is cut at its first bracket; a bracket in the first position does not count. */
  method CutText(s: string) returns (r: string)
    ensures r <= s && NoBracket(r, 1, |r|)
    ensures |r| < |s| ==> |r| >= 1 && s[|r|] == '['
  {
    var i := 1;
    while i < |s|
      invariant 1 <= i && (i <= |s| ==> NoBracket(s, 1, i))
      invariant i > |s| ==> |s| == 0
    {
      if s[i] == '[' {
        return s[..i];
      }
      i := i + 1;
    }
    return s;
  }

  // ----- the argument list -----

  /** The rewritten list: the first argument is a block on the array, arguments 2 to 5 are kept or
      filled with NIL, the sixth is the array of indexes, the others are kept; a text in the second
      place loses its subscripts. */
  method RewriteGet(args: seq<Arg>) returns (r: seq<Arg>)
    requires args != [] && args[0].Plain? && args[0].e.EIndex?
    ensures |r| == if |args| < 6 then 6 else |args|
    ensures r[0] == Block(SpineBase(args[0].e))
    ensures forall k :: 2 <= k < 5 ==> r[k] == if k < |args| then args[k] else Plain(ENil)
    ensures |args| < 2 ==> r[1] == Plain(ENil)
    ensures |args| >= 2 && !args[1].Text? ==> r[1] == args[1]
    ensures |args| >= 2 && args[1].Text? ==> r[1].Text? && r[1].s <= args[1].s && NoBracket(r[1].s, 1, |r[1].s|)
    ensures |args| >= 2 && args[1].Text? && |r[1].s| < |args[1].s| ==> |r[1].s| >= 1 && args[1].s[|r[1].s|] == '['
    ensures r[5] == Plain(EArray(ListOf(SpineIndexes(args[0].e))))
    ensures forall k :: 6 <= k < |args| ==> r[k] == args[k]
  {
    var base, indexes := CollectIndexes(args[0].e);
    r := args[0 := Block(base)];
    var count := 1;
    while count < 5
      invariant 1 <= count <= 5 && |r| == if |args| < count then count else |args|
      invariant r[0] == Block(base)
      invariant forall k :: 1 <= k < |r| ==> r[k] == if k < |args| then args[k] else Plain(ENil)
    {
      if |r| <= count {
        r := r + [Plain(ENil)];
      }
      count := count + 1;
    }
    r := r[..5] + [Plain(EArray(ListOf(indexes)))] + if |r| > 5 then r[6..] else [];
    if r[1].Text? {
      var t := CutText(r[1].s);
      r := r[1 := Text(t)];
    }
  }
}
