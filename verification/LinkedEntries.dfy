/** The doubly linked list of call and return nodes that the search rewires in place. */
module LinkedEntries {
  import opened Wrappers
  import opened Sequences
  import opened Linearizability
  import opened Entries

  datatype Value<+I, +O> = Nothing | Input(input: I) | Output(output: O)

  /** A list node. A call node has the matching return node as its partner, a return node
      (and the head) has none. Only the links ever change. */
  class Node<I, O> {
    const value: Value<I, O>
    const partner: Node?<I, O>
    const id: int
    ghost const pos: int  // position in the entry list, -1 for the head
    var next: Node?<I, O>
    var prev: Node?<I, O>

    constructor (value: Value<I, O>, partner: Node?<I, O>, id: int, ghost pos: int)
      ensures this.value == value && this.partner == partner && this.id == id && this.pos == pos
      ensures next == null && prev == null
    {
      this.value, this.partner, this.id, this.pos := value, partner, id, pos;
      next, prev := null, null;
    }
  }

  /** `l` is chained by `next` and `prev` and ends in null. */
  ghost predicate Linked<I, O>(l: seq<Node<I, O>>)
    reads l
  {
    && (forall k {:trigger l[k].next} :: 0 <= k < |l| ==> l[k].next == if k + 1 < |l| then l[k + 1] else null)
    && (forall k {:trigger l[k].prev} :: 0 < k < |l| ==> l[k].prev == l[k - 1])
  }

  /** Links `n` in front of `mark`, behind whatever preceded `mark`; the three need not be distinct. */
  method InsertBefore<I, O>(n: Node<I, O>, mark: Node?<I, O>) returns (r: Node<I, O>)
    modifies n, mark, if mark == null then null else mark.prev
    ensures r == n
    ensures mark == null ==> n.next == old(n.next) && n.prev == old(n.prev)
    ensures mark != null ==>
              var before := old(mark.prev);
              && n.next == (if before == n then n else mark)
              && n.prev == (if before != null then before else if n == mark then n else old(n.prev))
              && (n != mark ==> mark.prev == n && mark.next == if before == mark then n else old(mark.next))
              && (before != null ==> before.next == n)
              && (before != null && before != n && before != mark ==> before.prev == old(before.prev))
  {
    if mark != null {
      var beforeMark := mark.prev;
      mark.prev := n;
      n.next := mark;
      if beforeMark != null {
        n.prev := beforeMark;
        beforeMark.next := n;
      }
    }
    return n;
  }

  method Length<I, O>(first: Node?<I, O>, ghost l: seq<Node<I, O>>) returns (len: nat)
    requires Linked(l) && first == if l == [] then null else l[0]
    ensures len == |l|
  {
    len := 0;
    var n := first;
    while n != null
      invariant len <= |l| && n == if len < |l| then l[len] else null
      decreases |l| - len
    {
      n := n.next;
      len := len + 1;
    }
  }

  /** The first return of `id` at or after position `i`, or the end. */
  ghost function ReturnFrom<I, O>(h: seq<Entry<I, O>>, id: int, i: nat): (r: nat)
    requires i <= |h|
    ensures i <= r <= |h|
    ensures r < |h| ==> IsReturn(h, id, r)
    ensures forall j :: i <= j < r ==> !IsReturn(h, id, j)
    decreases |h| - i
  {
    if i == |h| || IsReturn(h, id, i) then i else ReturnFrom(h, id, i + 1)
  }

  /** `nodes` are the nodes of the entries from position `from` on, each call paired with the next return of its id. */
  ghost predicate Represents<I, O>(h: seq<Entry<I, O>>, nodes: seq<Node<I, O>>, from: nat) {
    && from <= |h| && |nodes| == |h| - from
    && forall k :: 0 <= k < |nodes| ==> NodeOf(h, nodes, from, k)
  }

  ghost predicate NodeOf<I, O>(h: seq<Entry<I, O>>, nodes: seq<Node<I, O>>, from: nat, k: nat)
    requires from <= |h| && |nodes| == |h| - from && k < |nodes|
  {
    var n, e := nodes[k], h[from + k];
    && n.pos == from + k && n.id == e.id
    && (e.Call? ==> n.value == Input(e.input) && n.partner == PartnerIn(h, nodes, from, e.id, from + k + 1))
    && (e.Return? ==> n.value == Output(e.output) && n.partner == null)
  }

  /** The node of the first return of `id` at or after position `i`, if there is one. */
  ghost function PartnerIn<I, O>(h: seq<Entry<I, O>>, nodes: seq<Node<I, O>>, from: nat, id: int, i: nat): Node?<I, O>
    requires from <= i <= |h| && |nodes| == |h| - from
  {
    var r := ReturnFrom(h, id, i);
    if r < |h| then nodes[r - from] else null
  }

  /** Return nodes seen so far: for every id the one closest to `from`. */
  ghost predicate Matches<I, O>(h: seq<Entry<I, O>>, nodes: seq<Node<I, O>>, from: nat, returns_: map<int, Node<I, O>>) {
    && from <= |h| && |nodes| == |h| - from
    && forall id :: PartnerIn(h, nodes, from, id, from) == if id in returns_ then returns_[id] else null
  }

  lemma RepresentsNoDup<I, O>(h: seq<Entry<I, O>>, nodes: seq<Node<I, O>>, from: nat)
    requires Represents(h, nodes, from)
    ensures NoDup(nodes)
  {
    forall i, j | 0 <= i < j < |nodes| ensures nodes[i] != nodes[j] {
      assert NodeOf(h, nodes, from, i) && NodeOf(h, nodes, from, j);
    }
  }

  /** One more node in front leaves the partners of the others as they are. */
  lemma RepresentsCons<I, O>(h: seq<Entry<I, O>>, n: Node<I, O>, nodes: seq<Node<I, O>>, from: nat, returns_: map<int, Node<I, O>>)
    requires Represents(h, nodes, from) && from > 0 && Matches(h, nodes, from, returns_)
    requires var e := h[from - 1];
             && n.pos == from - 1 && n.id == e.id
             && (e.Call? ==> n.value == Input(e.input) && n.partner == if e.id in returns_ then returns_[e.id] else null)
             && (e.Return? ==> n.value == Output(e.output) && n.partner == null)
    ensures Represents(h, [n] + nodes, from - 1)
    ensures Matches(h, [n] + nodes, from - 1, if h[from - 1].Return? then returns_[h[from - 1].id := n] else returns_)
  {
    var longer, f := [n] + nodes, from - 1;
    forall id, i: nat | from <= i <= |h| ensures PartnerIn(h, longer, f, id, i) == PartnerIn(h, nodes, from, id, i) {
      var r := ReturnFrom(h, id, i);
      assert r < |h| ==> longer[r - f] == nodes[r - from];
    }
    forall k | 0 <= k < |longer| ensures NodeOf(h, longer, f, k) {
      if k > 0 { assert NodeOf(h, nodes, from, k - 1); }
    }
    forall id ensures ReturnFrom(h, id, f) == if IsReturn(h, id, f) then f else ReturnFrom(h, id, from) {}
  }

  method MakeLinkedEntries<I, O>(h: seq<Entry<I, O>>) returns (root: Node?<I, O>, ghost nodes: seq<Node<I, O>>)
    ensures fresh(nodes) && Represents(h, nodes, 0) && Linked(nodes)
    ensures root == if nodes == [] then null else nodes[0]
    ensures root != null ==> root.prev == null
  {
    root, nodes := null, [];
    var returns_: map<int, Node<I, O>> := map[];
    var i := |h|;
    while i > 0
      invariant 0 <= i <= |h|
      invariant fresh(nodes) && Represents(h, nodes, i) && Matches(h, nodes, i, returns_) && Linked(nodes)
      invariant root == if nodes == [] then null else nodes[0]
      invariant root != null ==> root.prev == null
    {
      i := i - 1;
      var elem := h[i];
      var entry: Node<I, O>;
      ghost var before := returns_;
      if elem.Return? {
        entry := new Node(Output(elem.output), null, elem.id, i);
        returns_ := returns_[elem.id := entry];
      } else {
        entry := new Node(Input(elem.input), if elem.id in returns_ then returns_[elem.id] else null, elem.id, i);
      }
      RepresentsCons(h, entry, nodes, i + 1, before);
      RepresentsNoDup(h, [entry] + nodes, i);
      hide Represents, Matches;
      var _ := InsertBefore(entry, root);
      root := entry;
      nodes := [entry] + nodes;
    }
  }

  // ---------------------------------------------------------------------------------
  // Taking an operation out of the list and putting it back

  /** `w` is `l` without its element at index `k`. */
  ghost predicate Drops<T>(l: seq<T>, k: nat, w: seq<T>) {
    && k < |l| == |w| + 1
    && (forall j {:trigger w[j]} :: 0 <= j < k ==> w[j] == l[j])
    && (forall j {:trigger w[j]} :: k <= j < |w| ==> w[j] == l[j + 1])
  }

  /** A node outside the list still points at the neighbours it had at index `k` of `l`. */
  ghost predicate Remembers<I, O>(n: Node<I, O>, l: seq<Node<I, O>>, k: nat)
    requires 0 < k < |l|
    reads n
  {
    n.prev == l[k - 1] && n.next == if k + 1 < |l| then l[k + 1] else null
  }

  /** Takes `n` out of the list; `n` itself keeps its links. */
  method Unlink<I, O>(n: Node<I, O>, ghost l: seq<Node<I, O>>, ghost k: nat, ghost w: seq<Node<I, O>>)
    requires Linked(l) && NoDup(l) && 0 < k < |l| && n == l[k] && Drops(l, k, w)
    modifies n.prev, n.next
    ensures Linked(w) && Remembers(n, l, k)
    ensures l[0].prev == old(l[0].prev)
  {
    assert forall j :: 0 <= j < |l| ==> l[j].next == if j + 1 < |l| then l[j + 1] else null;
    assert n.prev == l[k - 1] && n.next == if k + 1 < |l| then l[k + 1] else null;
    n.prev.next := n.next;
    if n.next != null {
      n.next.prev := n.prev;
    }
  }

  /** Puts `n` back between the neighbours it remembers. */
  method Relink<I, O>(n: Node<I, O>, ghost l: seq<Node<I, O>>, ghost k: nat, ghost w: seq<Node<I, O>>)
    requires NoDup(l) && 0 < k < |l| && n == l[k] && Drops(l, k, w)
    requires Linked(w) && Remembers(n, l, k)
    modifies n.prev, n.next
    ensures Linked(l)
    ensures l[0].prev == old(l[0].prev)
  {
    LinkedGap(l, k, w);
    hide Drops, Linked;
    assert forall j :: 0 <= j < |l| && j != k - 1 ==> l[j] != l[k - 1];
    n.prev.next := n;
    if n.next != null {
      n.next.prev := n;
    }
    LinkedAgain(l);
  }

  /** Around the missing node the links of `w` are those of `l`. */
  lemma LinkedGap<I, O>(l: seq<Node<I, O>>, k: nat, w: seq<Node<I, O>>)
    requires 0 < k < |l| && Drops(l, k, w) && Linked(w)
    ensures forall j {:trigger l[j].next} :: 0 <= j < |l| && j != k && j != k - 1 ==>
              l[j].next == if j + 1 < |l| then l[j + 1] else null
    ensures forall j {:trigger l[j].prev} :: 0 < j < |l| && j != k && j != k + 1 ==> l[j].prev == l[j - 1]
  {
    forall j | 0 <= j < |l| && j != k && j != k - 1
      ensures l[j].next == if j + 1 < |l| then l[j + 1] else null
    {
      var i := if j < k then j else j - 1;
      assert w[i] == l[j] && w[i].next == if i + 1 < |w| then w[i + 1] else null;
    }
    forall j | 0 < j < |l| && j != k && j != k + 1 ensures l[j].prev == l[j - 1] {
      var i := if j < k then j else j - 1;
      assert w[i] == l[j] && w[i].prev == w[i - 1];
    }
  }

  lemma LinkedAgain<I, O>(l: seq<Node<I, O>>)
    requires forall j {:trigger l[j].next} :: 0 <= j < |l| ==> l[j].next == if j + 1 < |l| then l[j + 1] else null
    requires forall j {:trigger l[j].prev} :: 0 < j < |l| ==> l[j].prev == l[j - 1]
    ensures Linked(l)
  {
  }

  lemma DropsNoDup<T>(l: seq<T>, k: nat, w: seq<T>)
    requires NoDup(l) && Drops(l, k, w)
    ensures NoDup(w) && l[k] !in w && forall x :: x in w ==> x in l
  {
  }

  /** How a call and its return sit in the list before they leave it. */
  datatype Removal<I, O> = Removal(front: seq<Node<I, O>>, call: Node<I, O>, between: seq<Node<I, O>>,
                                   ret: Node<I, O>, back: seq<Node<I, O>>)
  {
    ghost function Before(): seq<Node<I, O>> { front + [call] + between + [ret] + back }

    ghost function Mid(): seq<Node<I, O>> { front + between + [ret] + back }

    ghost function After(): seq<Node<I, O>> { front + between + back }

    ghost predicate Valid() {
      front != [] && NoDup(Before()) && call.partner == ret
    }

    /** Call and return still point at the neighbours they had when they were removed. */
    ghost predicate Undoable()
      requires Valid()
      reads call, ret
    {
      Remembers(call, Before(), |front|) && Remembers(ret, Mid(), |front| + |between|)
    }
  }

  method Lift<I, O>(entry: Node<I, O>, ghost r: Removal<I, O>)
    requires r.Valid() && r.call == entry && Linked(r.Before())
    modifies r.Before()
    ensures Linked(r.After()) && r.Undoable()
    ensures r.front[0].prev == old(r.front[0].prev)
  {
    DropsNoDup(r.Before(), |r.front|, r.Mid());
    Unlink(entry, r.Before(), |r.front|, r.Mid());
    ghost var mid, k := r.Mid(), |r.front| + |r.between|;
    assert r.ret == mid[k] && r.ret.prev in mid && (r.ret.next == null || r.ret.next in mid);
    Unlink(entry.partner, mid, k, r.After());
  }

  method Unlift<I, O>(entry: Node<I, O>, ghost r: Removal<I, O>)
    requires r.Valid() && r.call == entry && Linked(r.After()) && r.Undoable()
    modifies r.Before()
    ensures Linked(r.Before())
    ensures r.front[0].prev == old(r.front[0].prev)
  {
    DropsNoDup(r.Before(), |r.front|, r.Mid());
    Relink(entry.partner, r.Mid(), |r.front| + |r.between|, r.After());
    Relink(entry, r.Before(), |r.front|, r.Mid());
  }

  /** Lifting and unlifting changes no link in the end, adjacent call and return included. */
  method LiftAndUnlift<I, O>(entry: Node<I, O>, ghost r: Removal<I, O>)
    requires r.Valid() && r.call == entry && Linked(r.Before())
    modifies r.Before()
    ensures Linked(r.Before())
    ensures forall k :: 0 <= k < |r.Before()| ==>
              r.Before()[k].next == old(r.Before()[k].next) && r.Before()[k].prev == old(r.Before()[k].prev)
  {
    ghost var l := r.Before();
    Lift(entry, r);
    Unlift(entry, r);
    assert l[0] == r.front[0];
    forall k | 0 <= k < |l| ensures l[k].next == old(l[k].next) && l[k].prev == old(l[k].prev) {
      assert l[k].next == old(l[k].next);
      assert k > 0 ==> l[k].prev == l[k - 1] == old(l[k].prev);
    }
  }
}
