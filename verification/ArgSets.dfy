/** Argument lists with parts whose length is only known at run time: the compiler pushes groups of
    arguments, each followed by its count, and the virtual machine joins the groups in place. */
module ArgSets {
  import opened Wrappers
  import opened Runtime

  /** A plain argument, or one that pushes any number of values and their count: a macro list, the
      rest of the parameters, or an array spread into arguments. */
  datatype Arg = Plain(v: Value) | Multi(vs: seq<Value>)

  function Joined(groups: seq<seq<Value>>): seq<Value>
  {
    if groups == [] then [] else Joined(groups[..|groups| - 1]) + groups[|groups| - 1]
  }

  /** The groups as they stand on the stack. */
  function Counted(groups: seq<seq<Value>>): seq<Value>
  {
    if groups == [] then []
    else Counted(groups[..|groups| - 1]) + groups[|groups| - 1] + [Num(|groups[|groups| - 1]|)]
  }

  /** The values meant, in source order. */
  function Meant(args: seq<Arg>): seq<Value>
  {
    if args == [] then []
    else
      var rest := Meant(args[..|args| - 1]);
      match args[|args| - 1]
      case Plain(v) => rest + [v]
      case Multi(vs) => rest + vs
  }

  lemma LastGroup(groups: seq<seq<Value>>, g: seq<Value>)
    ensures Joined(groups + [g]) == Joined(groups) + g
    ensures Counted(groups + [g]) == Counted(groups) + g + [Num(|g|)]
  {
    assert (groups + [g])[..|groups|] == groups;
  }

  lemma LastArg(args: seq<Arg>, i: nat)
    requires i < |args|
    ensures Meant(args[..i + 1]) == Meant(args[..i]) + (match args[i] case Plain(v) => [v] case Multi(vs) => vs)
  {
    assert args[..i + 1][..i] == args[..i];
  }

  /** Sets closed so far, and plain arguments since. */
  datatype Tally = Tally(closed: nat, open: nat)

  function Count(args: seq<Arg>): Tally
  {
    if args == [] then Tally(0, 0)
    else
      var t := Count(args[..|args| - 1]);
      match args[|args| - 1]
      case Plain(_) => t.(open := t.open + 1)
      case Multi(_) => Tally(t.closed + (if t.open == 0 then 1 else 2), 0)
  }

  lemma CountNext(args: seq<Arg>, i: nat)
    requires i < |args|
    ensures var t := Count(args[..i]);
      Count(args[..i + 1]) ==
        match args[i] case Plain(_) => t.(open := t.open + 1)
                      case Multi(_) => Tally(t.closed + (if t.open == 0 then 1 else 2), 0)
  {
    assert args[..i + 1][..i] == args[..i];
  }

  /** How many counts end up on the stack. */
  function Sets(args: seq<Arg>): nat
  {
    var t := Count(args);
    t.closed + if t.open == 0 then 0 else 1
  }

  predicate HasMulti(args: seq<Arg>)
  {
    exists i :: 0 <= i < |args| && args[i].Multi?
  }

  lemma {:induction false} ClosedByMulti(args: seq<Arg>)
    ensures Count(args).closed > 0 <==> HasMulti(args)
    ensures !HasMulti(args) ==> Count(args) == Tally(0, |args|)
    decreases |args|
  {
    if args != [] {
      var init := args[..|args| - 1];
      ClosedByMulti(init);
      if HasMulti(init) {
        var i :| 0 <= i < |init| && init[i].Multi?;
        assert args[i].Multi?;
      }
      if HasMulti(args) && args[|args| - 1].Plain? {
        var i :| 0 <= i < |args| && args[i].Multi?;
        assert init[i].Multi?;
      }
    }
  }

  /** hb_compExprParamListCheck: the operand of the call instruction. Without multi-value arguments it
      is the number of arguments, otherwise the number of sets that `PushArgs` leaves. */
  method ParamListCheck(args: seq<Arg>) returns (length: nat, sets: bool)
    ensures sets <==> HasMulti(args)
    ensures length == if sets then Sets(args) else |args|
  {
    length := 0;
    var items := 0;
    var i := 0;
    while i < |args|
      invariant 0 <= i <= |args| && Count(args[..i]) == Tally(length, items)
    {
      CountNext(args, i);
      if args[i].Multi? {
        if items != 0 {
          items := 0;
          length := length + 1;
        }
        length := length + 1;
      } else {
        items := items + 1;
      }
      i := i + 1;
    }
    assert args[..|args|] == args;
    ClosedByMulti(args);
    sets := length != 0;
    if sets {
      if items != 0 {
        length := length + 1;
      }
    } else {
      length := items;
    }
  }

  lemma NothingYet()
    ensures Counted([]) == [] && Joined([]) == [] && Meant([]) == [] && Count([]) == Tally(0, 0)
  {
  }

  /** What a stack of counted groups says, read from the top by the counts alone. */
  function Unwound(stack: seq<Value>, sets: nat): Option<seq<Value>>
  {
    var top := |stack| - 1;
    if sets == 0 then (if stack == [] then Some([]) else None)
    else if stack == [] || !stack[top].Num? || !(0 <= stack[top].n <= top) then None
    else
      var cut := top - stack[top].n;
      var rest :- Unwound(stack[..cut], sets - 1);
      Some(rest + stack[cut..top])
  }

  lemma {:induction false} CountedUnwinds(groups: seq<seq<Value>>)
    ensures Unwound(Counted(groups), |groups|) == Some(Joined(groups))
    decreases |groups|
  {
    if groups != [] {
      var init, g := groups[..|groups| - 1], groups[|groups| - 1];
      var stack, cut := Counted(groups), |Counted(init)|;
      assert stack == Counted(init) + g + [Num(|g|)];
      assert stack[..cut] == Counted(init) && stack[cut..|stack| - 1] == g;
      CountedUnwinds(init);
    }
  }

  /** The code for the list, run: plain arguments are pushed and counted; before a multi-value
      argument, and at the end, the count so far is pushed. What is on the stack is a sequence of
      counted groups that together are the arguments in source order, and `sets` of them; so the
      counts alone recover all arguments. */
  method PushArgs(args: seq<Arg>) returns (stack: seq<Value>, sets: nat, ghost groups: seq<seq<Value>>)
    ensures stack == Counted(groups) && Joined(groups) == Meant(args) && sets == |groups| == Sets(args)
    ensures Unwound(stack, sets) == Some(Meant(args))
  {
    hide Counted, Joined, Meant, Count;
    NothingYet();
    stack, sets, groups := [], 0, [];
    var items := 0;
    ghost var open: seq<Value> := [];
    var i := 0;
    while i < |args|
      invariant 0 <= i <= |args| && items == |open| && sets == |groups|
      invariant stack == Counted(groups) + open && Joined(groups) + open == Meant(args[..i])
      invariant Count(args[..i]) == Tally(sets, items)
    {
      LastArg(args, i);
      CountNext(args, i);
      match args[i] {
        case Plain(v) =>
          items := items + 1;
          stack := stack + [v];
          assert Counted(groups) + open + [v] == Counted(groups) + (open + [v]);
          assert Joined(groups) + open + [v] == Joined(groups) + (open + [v]);
          open := open + [v];
        case Multi(vs) =>
          if items != 0 {
            stack, items, sets := stack + [Num(items)], 0, sets + 1;
            LastGroup(groups, open);
            groups, open := groups + [open], [];
          }
          stack, sets := stack + vs + [Num(|vs|)], sets + 1;
          LastGroup(groups, vs);
          groups := groups + [vs];
      }
      i := i + 1;
    }
    assert args[..|args|] == args;
    if items != 0 {
      stack, sets := stack + [Num(items)], sets + 1;
      LastGroup(groups, open);
      groups := groups + [open];
    }
    CountedUnwinds(groups);
  }

  /** `groups` stand counted from `base` to `end`. */
  ghost predicate Stands(st: seq<Value>, base: nat, groups: seq<seq<Value>>, end: nat)
  {
    base + |Counted(groups)| == end <= |st| && st[base..end] == Counted(groups)
  }

  lemma {:induction false} CountedLength(groups: seq<seq<Value>>)
    ensures |Counted(groups)| == |Joined(groups)| + |groups|
    decreases |groups|
  {
    if groups != [] {
      CountedLength(groups[..|groups| - 1]);
    }
  }

  /** The topmost group lies below its count, and the others below it. */
  lemma CountOnTop(st: seq<Value>, base: nat, groups: seq<seq<Value>>, end: nat)
    requires groups != [] && Stands(st, base, groups, end)
    ensures var g := groups[|groups| - 1];
      && end - 1 - |g| >= base && end <= |st| && st[end - 1] == Num(|g|) && st[end - 1 - |g|..end - 1] == g
      && Stands(st, base, groups[..|groups| - 1], end - 1 - |g|)
  {
    var init, g := groups[..|groups| - 1], groups[|groups| - 1];
    var all, k := Counted(groups), |Counted(init)|;
    assert all == Counted(init) + g + [Num(|g|)];
    assert st[end - 1] == st[base..end][|all| - 1];
    Inside(st, base, end, k, |all| - 1);
    assert all[k..|all| - 1] == g;
    Inside(st, base, end, 0, k);
    assert all[..k] == Counted(init);
  }

  lemma Inside(s: seq<Value>, lo: nat, hi: nat, i: nat, j: nat)
    requires lo <= hi <= |s| && i <= j <= hi - lo
    ensures s[lo + i..lo + j] == s[lo..hi][i..j]
  {
    forall k | 0 <= k < j - i
      ensures s[lo + i..lo + j][k] == s[lo..hi][i..j][k]
    {
    }
  }

  /** Sequences with the same first `n` items agree on every stretch of them; the same for the rest. */
  lemma Front(s: seq<Value>, t: seq<Value>, n: nat, i: nat, j: nat)
    requires i <= j <= n && n <= |s| && n <= |t| && s[..n] == t[..n]
    ensures s[i..j] == t[i..j]
  {
    forall k | i <= k < j
      ensures s[k] == t[k]
    {
      assert s[k] == s[..n][k] == t[..n][k];
    }
  }

  lemma Back(s: seq<Value>, t: seq<Value>, n: nat, i: nat, j: nat)
    requires n <= i <= j <= |s| == |t| && s[n..] == t[n..]
    ensures s[i..j] == t[i..j]
  {
    forall k | i <= k < j
      ensures s[k] == t[k]
    {
      assert s[k] == s[n..][k - n] == t[n..][k - n];
    }
  }

  lemma SameStretch(now: seq<Value>, was: seq<Value>, from: nat, gap: nat, rest: nat)
    requires from + gap + rest <= |was| && from + rest <= |now|
    requires forall k :: from <= k < from + rest ==> now[k] == was[k + gap]
    ensures now[from..from + rest] == was[from + gap..from + gap + rest]
  {
    var a, b := now[from..from + rest], was[from + gap..from + gap + rest];
    forall k | 0 <= k < rest
      ensures a[k] == b[k]
    {
      assert a[k] == now[from + k] && b[k] == was[from + k + gap];
    }
  }

  /** Closing the gap: `rest` items move down by `gap` places. */
  method MoveDown(st: array<Value>, from: nat, gap: nat, rest: nat)
    requires gap >= 1 && from + gap + rest <= st.Length
    modifies st
    ensures st[from..from + rest] == old(st[from + gap..from + gap + rest])
    ensures st[..from] == old(st[..from]) && st[from + gap + rest..] == old(st[from + gap + rest..])
  {
    ghost var was := st[..];
    var offset, left := from, rest;
    while left != 0
      invariant 0 <= left <= rest && offset == from + (rest - left)
      invariant forall k :: from <= k < offset ==> st[k] == was[k + gap]
      invariant forall k :: 0 <= k < from || offset <= k < st.Length ==> st[k] == was[k]
      decreases left
    {
      st[offset] := st[offset + gap];
      left := left - 1;
      offset := offset + 1;
    }
    assert st[..from] == was[..from];
    assert st[from + gap + rest..] == was[from + gap + rest..];
    SameStretch(st[..], was, from, gap, rest);
  }

  /** `now` is `was` with the groups up to `end` joined at `base`. */
  ghost predicate Joins(was: seq<Value>, now: seq<Value>, base: nat, groups: seq<seq<Value>>, end: nat)
  {
    && |now| == |was| >= end && base + |Joined(groups)| + |groups| == end
    && now[..base] == was[..base] && now[end..] == was[end..]
    && now[base..base + |Joined(groups)|] == Joined(groups)
  }

  lemma JoinOne(st: seq<Value>, base: nat, groups: seq<seq<Value>>, end: nat)
    requires |groups| == 1 && Stands(st, base, groups, end)
    ensures Joins(st, st, base, groups, end)
  {
    CountOnTop(st, base, groups, end);
    CountedLength(groups);
    assert Joined(groups[..0]) == [];
    assert Joined(groups) == groups[0];
  }

  lemma JoinStep(was: seq<Value>, mid: seq<Value>, now: seq<Value>, base: nat, groups: seq<seq<Value>>, end: nat)
    requires |groups| > 1 && Stands(was, base, groups, end)
    requires var init, g := groups[..|groups| - 1], groups[|groups| - 1];
      && |g| + 1 <= end && Joins(was, mid, base, init, end - 1 - |g|)
      && |now| == |mid|
      && var from, gap := base + |Joined(init)|, |groups| - 1;
         && from + gap + |g| == end - 1
         && now[from..from + |g|] == mid[from + gap..from + gap + |g|]
         && now[..from] == mid[..from] && now[from + gap + |g|..] == mid[from + gap + |g|..]
    ensures Joins(was, now, base, groups, end)
  {
    var init, g := groups[..|groups| - 1], groups[|groups| - 1];
    hide Stands, Counted;
    var from, below := base + |Joined(init)|, end - 1 - |g|;
    CountOnTop(was, base, groups, end);
    Lengths(groups, base, was, end);
    Back(mid, was, below, below, end - 1);
    Back(mid, was, below, end, |was|);
    Front(now, mid, from, base, from);
    Front(now, mid, from, 0, base);
    Back(now, mid, end - 1, end, |mid|);
    assert now[base..from + |g|] == now[base..from] + now[from..from + |g|];
    assert now[end..] == now[end..|now|] && mid[end..] == mid[end..|mid|] && was[end..] == was[end..|was|];
    assert now[..base] == now[0..base] && mid[..base] == mid[0..base];
  }

  /** hb_vmArgsJoin: the counts are read from the top down, and each group is moved down over the
      counts below it. `level` is the position of the topmost count. */
  method ArgsJoin(st: array<Value>, level: nat, sets: nat, ghost base: nat, ghost groups: seq<seq<Value>>) returns (args: nat)
    requires sets == |groups| >= 1 && Stands(st[..], base, groups, level + 1)
    modifies st
    ensures args == |Joined(groups)| && Joins(old(st[..]), st[..], base, groups, level + 1)
    decreases sets
  {
    hide Stands, Counted, Joined, Joins;
    ghost var init, g := groups[..|groups| - 1], groups[|groups| - 1];
    CountOnTop(st[..], base, groups, level + 1);
    Lengths(groups, base, st[..], level + 1);
    args := st[level].n;
    if sets - 1 != 0 {
      var rest := args;
      var below := level - rest;
      var more := ArgsJoin(st, below - 1, sets - 1, base, init);
      ghost var mid := st[..];
      args := rest + more;
      MoveDown(st, below - (sets - 1), sets - 1, rest);
      JoinStep(old(st[..]), mid, st[..], base, groups, level + 1);
    } else {
      JoinOne(st[..], base, groups, level + 1);
    }
  }

  lemma Lengths(groups: seq<seq<Value>>, base: nat, st: seq<Value>, end: nat)
    requires groups != [] && Stands(st, base, groups, end)
    ensures var init, g := groups[..|groups| - 1], groups[|groups| - 1];
      && Joined(groups) == Joined(init) + g && base + |Joined(groups)| + |groups| == end
      && (|groups| == 1 ==> Joined(init) == [])
  {
    CountedLength(groups);
  }

  /** Pushed by the code and joined by the machine, the arguments arrive in source order, with the
      stack below them as it was. */
  method PushAndJoin(args: seq<Arg>, below: seq<Value>) returns (stack: seq<Value>, count: nat)
    ensures stack == below + Meant(args) && count == |Meant(args)|
  {
    ghost var groups;
    var pushed, sets;
    pushed, sets, groups := PushArgs(args);
    if sets == 0 {
      return below, 0;
    }
    CountedLength(groups);
    var st := new Value[|below| + |pushed|](i requires 0 <= i < |below| + |pushed| => (below + pushed)[i]);
    assert st[..] == below + pushed;
    count := ArgsJoin(st, st.Length - 1, sets, |below|, groups);
    stack := st[..st.Length - sets];
    assert st[..|below|] == below;
    assert stack == st[..|below|] + st[|below|..|below| + count];
  }
}
