/** Lists of expressions as the compiler keeps them: linked nodes, rewritten while they are walked. */
module ExprList {
  import opened Expr
  import opened Reduce

  class Node {
    var expr: Expr
    var next: Node?

    constructor (expr: Expr, next: Node?)
      ensures this.expr == expr && this.next == next
    {
      this.expr, this.next := expr, next;
    }
  }

  /** The expression that owns the list. */
  class Owner {
    var first: Node?

    constructor (first: Node?)
      ensures this.first == first
    {
      this.first := first;
    }
  }

  ghost function After(nodes: seq<Node>, i: nat): Node?
    requires i <= |nodes|
  {
    if i < |nodes| then nodes[i] else null
  }

  /** The nodes from `i` on are linked in order, and the last of them ends the list. */
  ghost predicate Linked(nodes: seq<Node>, i: nat)
    reads nodes
  {
    forall k :: i <= k < |nodes| ==> nodes[k].next == After(nodes, k + 1)
  }

  ghost predicate Distinct(nodes: seq<Node>)
  {
    forall j, k :: 0 <= j < k < |nodes| ==> nodes[j] != nodes[k]
  }

  ghost predicate IsList(first: Node?, nodes: seq<Node>)
    reads nodes
  {
    first == After(nodes, 0) && Linked(nodes, 0) && Distinct(nodes)
  }

  ghost function Contents(nodes: seq<Node>): Exprs
    reads nodes
  {
    if nodes == [] then NoMore else More(nodes[0].expr, Contents(nodes[1..]))
  }

  /** The REDUCE message: the node is rewritten in place, or another node takes over. The link of
      the node returned may point anywhere. */
  method ReduceNode(n: Node, f: Env, elsewhere: Node?) returns (r: Node)
    modifies n
    ensures r.expr == Reduced(f, old(n.expr)) && (r == n || fresh(r))
  {
    var replaced: bool := *;
    if replaced {
      r := new Node(Reduced(f, n.expr), elsewhere);
    } else {
      n.expr, n.next := Reduced(f, n.expr), elsewhere;
      r := n;
    }
  }

  /** One step: the node at place `i` is reduced, and whatever node takes its place is linked to
      what stood before and after it. */
  method ReplaceNode(list: Owner, f: Env, last: Node?, at: Node, elsewhere: Node?, ghost all: seq<Node>, ghost i: nat)
    returns (r: Node)
    requires IsList(list.first, all) && i < |all| && all[i] == at && last == if i == 0 then null else all[i - 1]
    modifies list, last, at
    ensures IsList(list.first, all[i := r]) && (r == at || fresh(r))
    ensures r.expr == Reduced(f, old(at.expr)) && r.next == After(all, i + 1)
    ensures last != null ==> last.expr == old(last.expr)
  {
    hide Reduced;
    var next := at.next;
    r := ReduceNode(at, f, elsewhere);
    if last == null {
      list.first := r;
    } else {
      last.next := r;
    }
    r.next := next;
  }

  /** hb_compExprReduceList: the list keeps its length and order, the k-th expression becomes the
      reduction of the k-th, and no link is lost although nodes are replaced under way. */
  method ReduceList(list: Owner, f: Env, elsewhere: Node?, ghost nodes: seq<Node>) returns (ghost result: seq<Node>)
    requires IsList(list.first, nodes)
    modifies list, nodes
    ensures IsList(list.first, result) && |result| == |nodes|
    ensures forall k :: 0 <= k < |nodes| ==> result[k].expr == Reduced(f, old(nodes[k].expr))
    ensures forall k :: 0 <= k < |nodes| ==> result[k] == nodes[k] || fresh(result[k])
  {
    hide Reduced;
    result := nodes;
    var last: Node? := null;
    var at := list.first;
    ghost var i := 0;
    while at != null
      invariant i <= |nodes| == |result| && at == After(result, i)
      invariant last == if i == 0 then null else result[i - 1]
      invariant IsList(list.first, result)
      invariant forall k :: 0 <= k < |nodes| ==> result[k] == nodes[k] || (k < i && fresh(result[k]))
      invariant forall k :: 0 <= k < i ==> result[k].expr == Reduced(f, old(nodes[k].expr))
      invariant forall k :: i <= k < |nodes| ==> nodes[k].expr == old(nodes[k].expr)
      decreases |nodes| - i
    {
      var r := ReplaceNode(list, f, last, at, elsewhere, result, i);
      result := result[i := r];
      last := r;
      at := r.next;
      i := i + 1;
    }
  }

  /** The same on the contents: the list of the reductions. */
  lemma {:induction false} ContentsReduced(f: Env, before: seq<Expr>, after: seq<Expr>)
    requires |before| == |after| && forall k :: 0 <= k < |before| ==> after[k] == Reduced(f, before[k])
    ensures ListOf(after) == ReducedAll(f, ListOf(before))
  {
    if before != [] {
      ContentsReduced(f, before[1..], after[1..]);
    }
  }
}
