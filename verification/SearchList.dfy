/** How the linked list follows the search: at every depth of the stack the list is the
    original history without the operations linearized so far. */
module SearchList {
  import opened Wrappers
  import opened Sequences
  import opened Linearizability
  import opened Entries
  import opened LinkedEntries

  /** The nodes at positions `lo` to `hi` whose operation is not in `b`. */
  ghost function Rest<I, O>(nodes: seq<Node<I, O>>, b: set<nat>, lo: nat, hi: nat): seq<Node<I, O>>
    requires lo <= hi <= |nodes|
  {
    if lo == hi then [] else
      Rest(nodes, b, lo, hi - 1) + if nodes[hi - 1].id in b then [] else [nodes[hi - 1]]
  }

  /** The list once the operations in `b` are linearized. */
  ghost function Listed<I, O>(head: Node<I, O>, nodes: seq<Node<I, O>>, b: set<nat>): seq<Node<I, O>> {
    [head] + Rest(nodes, b, 0, |nodes|)
  }

  ghost predicate Ordered<I, O>(nodes: seq<Node<I, O>>) {
    forall i :: 0 <= i < |nodes| ==> nodes[i].pos == i
  }

  lemma {:induction false} RestMembers<I, O>(nodes: seq<Node<I, O>>, b: set<nat>, lo: nat, hi: nat)
    requires lo <= hi <= |nodes| && Ordered(nodes)
    ensures forall n :: n in Rest(nodes, b, lo, hi) ==> lo <= n.pos < hi && n == nodes[n.pos] && n.id !in b
    ensures forall i :: lo <= i < hi && nodes[i].id !in b ==> nodes[i] in Rest(nodes, b, lo, hi)
    ensures NoDup(Rest(nodes, b, lo, hi))
  {
    if lo < hi { RestMembers(nodes, b, lo, hi - 1); }
  }

  lemma {:induction false} RestSplit<I, O>(nodes: seq<Node<I, O>>, b: set<nat>, lo: nat, mid: nat, hi: nat)
    requires lo <= mid <= hi <= |nodes|
    ensures Rest(nodes, b, lo, hi) == Rest(nodes, b, lo, mid) + Rest(nodes, b, mid, hi)
  {
    if mid < hi { RestSplit(nodes, b, lo, mid, hi - 1); }
  }

  lemma {:induction false} RestSame<I, O>(nodes: seq<Node<I, O>>, b: set<nat>, id: nat, lo: nat, hi: nat)
    requires lo <= hi <= |nodes|
    requires forall i :: lo <= i < hi ==> nodes[i].id != id
    ensures Rest(nodes, b + {id}, lo, hi) == Rest(nodes, b, lo, hi)
  {
    if lo < hi { RestSame(nodes, b, id, lo, hi - 1); }
  }

  lemma {:induction false} RestFirst<I, O>(nodes: seq<Node<I, O>>, b: set<nat>, c: nat)
    requires c < |nodes|
    ensures Rest(nodes, b, c, c + 1) == if nodes[c].id in b then [] else [nodes[c]]
  {
    assert Rest(nodes, b, c, c) == [];
  }

  /** The operation `id`, called at position `c` and returned at `r`, is all that `b + {id}` leaves out over `b`. */
  lemma RemovalOf<I, O>(head: Node<I, O>, nodes: seq<Node<I, O>>, b: set<nat>, id: nat, c: nat, r: nat) returns (m: Removal<I, O>)
    requires c < r < |nodes| && id !in b
    requires nodes[c].id == nodes[r].id == id && nodes[c].partner == nodes[r]
    requires forall i :: 0 <= i < |nodes| && nodes[i].id == id ==> i == c || i == r
    ensures m.call == nodes[c] && m.ret == nodes[r] && m.front == [head] + Rest(nodes, b, 0, c)
    ensures m.Before() == Listed(head, nodes, b) && m.After() == Listed(head, nodes, b + {id})
  {
    var n := |nodes|;
    m := Removal([head] + Rest(nodes, b, 0, c), nodes[c], Rest(nodes, b, c + 1, r), nodes[r], Rest(nodes, b, r + 1, n));
    var b' := b + {id};
    RestSame(nodes, b, id, 0, c);
    RestSame(nodes, b, id, c + 1, r);
    RestSame(nodes, b, id, r + 1, n);
    SplitAround(nodes, b, c, r);
    SplitAround(nodes, b', c, r);
    hide Rest;
    Regroup(head, m.front[1..], nodes[c], m.between, nodes[r], m.back);
    assert m.front == [head] + m.front[1..];
  }

  lemma Regroup<T>(head: T, front: seq<T>, x: T, between: seq<T>, y: T, back: seq<T>)
    ensures [head] + (front + [x] + between + [y] + back) == ([head] + front) + [x] + between + [y] + back
    ensures [head] + (front + [] + between + [] + back) == ([head] + front) + between + back
  {
  }

  lemma SplitAround<I, O>(nodes: seq<Node<I, O>>, b: set<nat>, c: nat, r: nat)
    requires c < r < |nodes|
    ensures Rest(nodes, b, 0, |nodes|) ==
              Rest(nodes, b, 0, c) + (if nodes[c].id in b then [] else [nodes[c]]) +
              Rest(nodes, b, c + 1, r) + (if nodes[r].id in b then [] else [nodes[r]]) + Rest(nodes, b, r + 1, |nodes|)
  {
    RestSplit(nodes, b, 0, r + 1, |nodes|);
    RestSplit(nodes, b, 0, c + 1, r);
  }

  lemma ListedNoDup<I, O>(head: Node<I, O>, nodes: seq<Node<I, O>>, b: set<nat>)
    requires Ordered(nodes) && head.pos == -1
    ensures NoDup(Listed(head, nodes, b))
    ensures forall n :: n in Listed(head, nodes, b) ==> n == head || n in nodes
  {
    RestMembers(nodes, b, 0, |nodes|);
  }

  /** Linearized operations are not in the list. */
  lemma NotListed<I, O>(head: Node<I, O>, nodes: seq<Node<I, O>>, b: set<nat>, n: Node<I, O>)
    requires Ordered(nodes) && head.id == -1
    requires n.id in b
    ensures n !in Listed(head, nodes, b)
  {
    RestMembers(nodes, b, 0, |nodes|);
  }

  /** The undo stack, links aside: the operation at depth `d` was lifted from the list that the ones below it left. */
  ghost predicate Shape<I, O>(head: Node<I, O>, nodes: seq<Node<I, O>>, removals: seq<Removal<I, O>>, stack: seq<nat>) {
    && |removals| == |stack|
    && forall d :: 0 <= d < |stack| ==> Step(head, nodes, removals[d], stack, d)
  }

  ghost predicate Step<I, O>(head: Node<I, O>, nodes: seq<Node<I, O>>, r: Removal<I, O>, stack: seq<nat>, d: nat)
    requires d < |stack|
  {
    && r.Valid() && r.call in nodes && r.ret in nodes && r.call.id == r.ret.id == stack[d]
    && r.Before() == Listed(head, nodes, Ids(stack[..d]))
    && r.After() == Listed(head, nodes, Ids(stack[..d + 1]))
  }

  /** What each lifted operation remembers of the list it came from. */
  ghost predicate Undoable<I, O>(nodes: seq<Node<I, O>>, removals: seq<Removal<I, O>>)
    reads nodes
  {
    forall d :: 0 <= d < |removals| ==>
      && removals[d].call in nodes && removals[d].ret in nodes && removals[d].Valid()
      && removals[d].Undoable()
  }

  /** The first `k` lifted operations are not in a list that leaves all of them out. */
  lemma NoneListed<I, O>(head: Node<I, O>, nodes: seq<Node<I, O>>, removals: seq<Removal<I, O>>, stack: seq<nat>, k: nat)
    requires Ordered(nodes) && head.id == -1
    requires Shape(head, nodes, removals, stack) && k <= |stack|
    ensures Apart(removals[..k], Listed(head, nodes, Ids(stack[..k])))
  {
    forall d | 0 <= d < k
      ensures removals[d].call !in Listed(head, nodes, Ids(stack[..k])) && removals[d].ret !in Listed(head, nodes, Ids(stack[..k]))
    {
      assert Step(head, nodes, removals[d], stack, d);
      assert stack[..k][d] == stack[d];
      NotListed(head, nodes, Ids(stack[..k]), removals[d].call);
      NotListed(head, nodes, Ids(stack[..k]), removals[d].ret);
    }
  }

  ghost predicate Apart<I, O>(removals: seq<Removal<I, O>>, l: seq<Node<I, O>>) {
    forall d :: 0 <= d < |removals| ==> removals[d].call !in l && removals[d].ret !in l
  }

  lemma ShapePush<I, O>(head: Node<I, O>, nodes: seq<Node<I, O>>, removals: seq<Removal<I, O>>, stack: seq<nat>,
                        r: Removal<I, O>, id: nat)
    requires Shape(head, nodes, removals, stack)
    requires r.Valid() && r.call in nodes && r.ret in nodes && r.call.id == r.ret.id == id
    requires r.Before() == Listed(head, nodes, Ids(stack)) && r.After() == Listed(head, nodes, Ids(stack) + {id})
    ensures Shape(head, nodes, removals + [r], stack + [id])
  {
    var rs, st := removals + [r], stack + [id];
    forall d | 0 <= d < |st| ensures Step(head, nodes, rs[d], st, d) {
      if d < |stack| {
        assert Step(head, nodes, removals[d], stack, d);
        assert st[..d] == stack[..d] && st[..d + 1] == stack[..d + 1];
      } else {
        assert st[..d] == stack && st[..d + 1] == st;
        IdsSnoc(stack, id);
      }
    }
  }

  lemma ShapePop<I, O>(head: Node<I, O>, nodes: seq<Node<I, O>>, removals: seq<Removal<I, O>>, stack: seq<nat>)
    requires Shape(head, nodes, removals, stack) && stack != []
    ensures Shape(head, nodes, removals[..|stack| - 1], stack[..|stack| - 1])
  {
    var k := |stack| - 1;
    var rs, st := removals[..k], stack[..k];
    forall d | 0 <= d < |st| ensures Step(head, nodes, rs[d], st, d) {
      assert Step(head, nodes, removals[d], stack, d);
      assert st[..d] == stack[..d] && st[..d + 1] == stack[..d + 1];
    }
  }

  /** Lifts `entry` out of the list and keeps the rest of the undo stack usable. */
  method LiftNext<I, O>(entry: Node<I, O>, ghost r: Removal<I, O>, ghost nodes: seq<Node<I, O>>, ghost removals: seq<Removal<I, O>>)
    requires r.Valid() && r.call == entry && Linked(r.Before()) && r.call in nodes && r.ret in nodes
    requires Undoable(nodes, removals) && Apart(removals, r.Before())
    modifies r.Before()
    ensures Linked(r.After()) && Undoable(nodes, removals + [r])
  {
    Lift(entry, r);
  }

  /** Undoes the last lift. */
  method UnliftLast<I, O>(entry: Node<I, O>, ghost r: Removal<I, O>, ghost nodes: seq<Node<I, O>>, ghost removals: seq<Removal<I, O>>)
    requires Undoable(nodes, removals + [r]) && r.Valid() && r.call == entry && Linked(r.After())
    requires Apart(removals, r.Before())
    modifies r.Before()
    ensures Linked(r.Before()) && Undoable(nodes, removals)
  {
    assert (removals + [r])[|removals|] == r;
    assert forall d :: 0 <= d < |removals| ==> (removals + [r])[d] == removals[d];
    Unlift(entry, r);
  }

  // ---------------------------------------------------------------------------------
  // The cursor

  /** The first position from `from` on whose operation is not in `b`, or the end. */
  ghost function NextPos<I, O>(nodes: seq<Node<I, O>>, b: set<nat>, from: nat): (p: nat)
    requires from <= |nodes|
    ensures from <= p <= |nodes|
    ensures p < |nodes| ==> nodes[p].id !in b
    ensures forall i :: from <= i < p ==> nodes[i].id in b
    decreases |nodes| - from
  {
    if from == |nodes| || nodes[from].id !in b then from else NextPos(nodes, b, from + 1)
  }

  ghost function NodeAt<I, O>(nodes: seq<Node<I, O>>, p: nat): Node?<I, O> {
    if p < |nodes| then nodes[p] else null
  }

  lemma {:induction false} RestEmpty<I, O>(nodes: seq<Node<I, O>>, b: set<nat>, lo: nat, hi: nat)
    requires lo <= hi <= |nodes| && forall i :: lo <= i < hi ==> nodes[i].id in b
    ensures Rest(nodes, b, lo, hi) == []
  {
    if lo < hi { RestEmpty(nodes, b, lo, hi - 1); }
  }

  /** The rest of the list starts at the next position not left out. */
  lemma RestStart<I, O>(nodes: seq<Node<I, O>>, b: set<nat>, from: nat)
    requires from <= |nodes|
    ensures var p, l := NextPos(nodes, b, from), Rest(nodes, b, from, |nodes|);
            if p == |nodes| then l == [] else l != [] && l[0] == nodes[p]
  {
    var p := NextPos(nodes, b, from);
    RestEmpty(nodes, b, from, p);
    RestSplit(nodes, b, from, p, |nodes|);
    if p < |nodes| {
      RestSplit(nodes, b, p, p + 1, |nodes|);
      RestFirst(nodes, b, p);
    }
  }

  /** Following `next` from the head or from a listed node leads to the next position not left out. */
  lemma Following<I, O>(head: Node<I, O>, nodes: seq<Node<I, O>>, b: set<nat>)
    requires Linked(Listed(head, nodes, b))
    ensures head.next == NodeAt(nodes, NextPos(nodes, b, 0))
  {
    RestStart(nodes, b, 0);
    var l := Listed(head, nodes, b);
    assert l[0] == head;
  }

  lemma FollowingAt<I, O>(head: Node<I, O>, nodes: seq<Node<I, O>>, b: set<nat>, c: nat)
    requires c < |nodes| && nodes[c].id !in b
    requires Linked(Listed(head, nodes, b))
    ensures nodes[c].next == NodeAt(nodes, NextPos(nodes, b, c + 1))
  {
    var l := Listed(head, nodes, b);
    RestSplit(nodes, b, 0, c + 1, |nodes|);
    RestStart(nodes, b, c + 1);
    var k := 1 + |Rest(nodes, b, 0, c)|;
    assert l[k] == nodes[c];
    assert l[k].next == if k + 1 < |l| then l[k + 1] else null;
  }
}
