/** The search itself: decides whether one history is linearizable by backtracking over
    the linked list of its entries, pruned by the memo table. */
module CheckSingle {
  import opened Wrappers
  import opened Sequences
  import opened Linearizability
  import opened Search
  import opened Entries
  import opened LinkedEntries
  import opened SearchList
  import opened Bitset
  import opened Progress
  import Cache

  datatype CallsEntry<S, I, O> = CallsEntry(entry: Node<I, O>, state: S)

  // ---------------------------------------------------------------------------------
  // From list positions to operation times

  /** The node at position `i` and the operation it belongs to. */
  lemma NodeOperation<I, O>(h: seq<Entry<I, O>>, nodes: seq<Node<I, O>>, i: nat)
    requires WellFormed(h) && Represents(h, nodes, 0) && i < |h|
    ensures var n, ops := nodes[i], OpsOf(h);
            && 0 <= n.id < |ops| && n.pos == i
            && (n.partner == null ==> ops[n.id].ret <= i)
            && (n.partner != null ==>
                  && ops[n.id].call == i < ops[n.id].ret < |h| && n.value == Input(ops[n.id].input)
                  && n.partner == nodes[ops[n.id].ret] && n.partner.id == n.id
                  && n.partner.value == Output(ops[n.id].output))
  {
    assert NodeOf(h, nodes, 0, i);
    EntryAt(h, i);
    if h[i].Call? {
      var r := ReturnAt(h, h[i].id);
      assert NodeOf(h, nodes, 0, r);
      OnlyReturn(h, h[i].id, i + 1);
    }
  }

  /** The only return of an operation is the partner of its call if it comes later. */
  lemma OnlyReturn<I, O>(h: seq<Entry<I, O>>, id: nat, i: nat)
    requires WellFormed(h) && id < |h| / 2 && i <= |h|
    ensures ReturnFrom(h, id, i) == if ReturnAt(h, id) < i then |h| else ReturnAt(h, id)
  {
    var r, q := ReturnAt(h, id), ReturnFrom(h, id, i);
    assert IsReturn(h, id, r);
    assert q < |h| ==> IsReturn(h, id, q);
  }

  /** Both entries of an operation carry its id. */
  lemma OperationNodes<I, O>(h: seq<Entry<I, O>>, nodes: seq<Node<I, O>>, p: nat)
    requires WellFormed(h) && Represents(h, nodes, 0) && p < |h| / 2
    ensures var ops := OpsOf(h);
            && 0 <= ops[p].call < |h| && 0 <= ops[p].ret < |h| && ops[p].call != ops[p].ret
            && nodes[ops[p].call].id == p && nodes[ops[p].ret].id == p
            && (ops[p].call < ops[p].ret ==> nodes[ops[p].call].partner != null)
            && forall i :: 0 <= i < |h| && nodes[i].id == p ==> i == ops[p].call || i == ops[p].ret
  {
    var c, r := CallAt(h, p), ReturnAt(h, p);
    assert NodeOf(h, nodes, 0, c) && NodeOf(h, nodes, 0, r);
    OnlyReturn(h, p, c + 1);
    forall i | 0 <= i < |h| && nodes[i].id == p ensures i == c || i == r {
      assert NodeOf(h, nodes, 0, i);
    }
  }

  /** An unlinearized operation has no entry in a stretch of the history that was skipped. */
  lemma TimesBeyond<I, O>(h: seq<Entry<I, O>>, nodes: seq<Node<I, O>>, b: set<nat>, from: nat, p: nat)
    requires WellFormed(h) && Represents(h, nodes, 0) && from <= |h| && p < |h| / 2 && p !in b
    ensures var ops, next := OpsOf(h), NextPos(nodes, b, from);
            (ops[p].call < from || ops[p].call >= next) && (ops[p].ret < from || ops[p].ret >= next)
  {
    OperationNodes(h, nodes, p);
  }

  // ---------------------------------------------------------------------------------
  // The search invariant along the moves of the cursor

  lemma RestartCursor<S(!new), I, O>(m: Model<S, I, O>, h: seq<Entry<I, O>>, nodes: seq<Node<I, O>>, stack: seq<nat>,
                                     seen: set<Config<S>>, longest: Longest, partial: bool, cut: nat, s': S)
    requires WellFormed(h) && Represents(h, nodes, 0) && cut < |h|
    requires nodes[cut].partner != null && nodes[cut].id !in Ids(stack) && nodes[cut].id >= 0
    requires Inv(m, OpsOf(h), stack, seen, longest, partial, cut)
    requires Apply(m, OpsOf(h), StateAfter(m, OpsOf(h), stack).value, nodes[cut].id) == Some(s')
    ensures var id: nat := nodes[cut].id;
            var cut' := NextPos(nodes, Ids(stack + [id]), 0);
            && Ids(stack + [id]) == Ids(stack) + {id}
            && StateAfter(m, OpsOf(h), stack + [id]) == Some(s')
            && Inv(m, OpsOf(h), stack + [id], seen + {(Ids(stack) + {id}, s')}, longest, partial, cut')
  {
    var ops, id: nat := OpsOf(h), nodes[cut].id;
    NodeOperation(h, nodes, cut);
    OpsTimeline(h);
    IdsSnoc(stack, id);
    var cut' := NextPos(nodes, Ids(stack + [id]), 0);
    forall p: nat | p < |ops| && p !in stack && p != id ensures ops[p].ret >= cut' && ops[p].call >= cut' {
      OperationNodes(h, nodes, p);
      TimesBeyond(h, nodes, Ids(stack + [id]), 0, p);
    }
    InvPush(m, ops, stack, seen, longest, partial, cut, cut', id, s');
  }

  lemma AdvanceCursor<S(!new), I, O>(m: Model<S, I, O>, h: seq<Entry<I, O>>, nodes: seq<Node<I, O>>, stack: seq<nat>,
                                     seen: set<Config<S>>, longest: Longest, partial: bool, cut: nat)
    requires WellFormed(h) && Represents(h, nodes, 0) && cut < |h|
    requires nodes[cut].partner != null && nodes[cut].id >= 0
    requires Inv(m, OpsOf(h), stack, seen, longest, partial, cut)
    requires var s, id: nat := StateAfter(m, OpsOf(h), stack).value, nodes[cut].id;
             Apply(m, OpsOf(h), s, id).Some? ==> Covered(m, seen, Ids(stack) + {id}, Apply(m, OpsOf(h), s, id).value)
    ensures Inv(m, OpsOf(h), stack, seen, longest, partial, NextPos(nodes, Ids(stack), cut + 1))
  {
    var ops, id: nat := OpsOf(h), nodes[cut].id;
    NodeOperation(h, nodes, cut);
    var cut' := NextPos(nodes, Ids(stack), cut + 1);
    forall p: nat | p < |ops| && p !in stack
      ensures ops[p].ret >= cut' && (ops[p].call <= cut || ops[p].call >= cut')
    {
      OperationNodes(h, nodes, p);
      TimesBeyond(h, nodes, Ids(stack), cut + 1, p);
    }
    forall p: nat | p < |ops| && p != id ensures ops[p].call != cut {
      OperationNodes(h, nodes, p);
    }
    InvAdvance(m, ops, stack, seen, longest, partial, cut, cut', id);
  }

  lemma BacktrackCursor<S(!new), I, O>(m: Model<S, I, O>, h: seq<Entry<I, O>>, nodes: seq<Node<I, O>>, stack: seq<nat>,
                                       seen: set<Config<S>>, longest: Longest, partial: bool, cut: nat, s: S,
                                       time: nat)
    requires WellFormed(h) && Represents(h, nodes, 0) && cut < |h| && stack != []
    requires nodes[cut].partner == null && nodes[cut].id !in Ids(stack)
    requires Inv(m, OpsOf(h), stack, seen, longest, partial, cut)
    requires StateAfter(m, OpsOf(h), stack) == Some(s)
    ensures var k := |stack| - 1;
            var longest' := Updated(partial, longest, stack, time);
            && stack[k] < |h| / 2
            && Inv(m, OpsOf(h), stack[..k], seen, longest', partial,
                   NextPos(nodes, Ids(stack[..k]), OpsOf(h)[stack[k]].call + 1))
  {
    var ops, k := OpsOf(h), |stack| - 1;
    var longest' := Updated(partial, longest, stack, time);
    NodeOperation(h, nodes, cut);
    OpsTimeline(h);
    InvPop(m, ops, stack, seen, longest, partial, nodes[cut].id, time);
    TopStep(m, ops, stack);
    TopCovered(m, ops, stack, seen, cut, s);
    OperationNodes(h, nodes, stack[k]);
    PartialForward(m, ops, stack, k);
    AdvanceCursor(m, h, nodes, stack[..k], seen, longest', partial, ops[stack[k]].call);
  }

  lemma GiveUp<S(!new), I(!new), O(!new)>(m: Model<S, I, O>, h: seq<Entry<I, O>>, nodes: seq<Node<I, O>>,
                                          seen: set<Config<S>>, longest: Longest, partial: bool, cut: nat)
    requires EqualitySound(m)
    requires WellFormed(h) && Represents(h, nodes, 0) && cut < |h|
    requires nodes[cut].partner == null
    requires Inv(m, OpsOf(h), [], seen, longest, partial, cut)
    ensures !Linearizable(m, OpsOf(h))
    ensures partial ==> Maximal(m, OpsOf(h), longest)
  {
    NodeOperation(h, nodes, cut);
    OpsTimeline(h);
    InvGivesUp(m, OpsOf(h), seen, longest, partial, nodes[cut].id);
    CompleteOutcome(m, OpsOf(h), seen, longest, partial);
  }

  /** When the list has run empty, the stack is a linearization. */
  lemma Finished<S(!new), I, O>(m: Model<S, I, O>, h: seq<Entry<I, O>>, head: Node<I, O>, nodes: seq<Node<I, O>>, stack: seq<nat>)
    requires WellFormed(h) && Represents(h, nodes, 0)
    requires PartialLinearization(m, OpsOf(h), stack)
    requires NextPos(nodes, Ids(stack), 0) == |h|
    ensures Linearization(m, OpsOf(h), stack)
  {
    forall p: nat | p < |OpsOf(h)| ensures p in stack {
      OperationNodes(h, nodes, p);
    }
    OpsTimeline(h);
    SoundOutcome(m, OpsOf(h), stack);
  }

  /** While the list is not empty, the cursor is on an unlinearized entry. */
  lemma CursorInside<S(!new), I, O>(m: Model<S, I, O>, h: seq<Entry<I, O>>, nodes: seq<Node<I, O>>, stack: seq<nat>,
                                    seen: set<Config<S>>, longest: Longest, partial: bool, cut: nat)
    requires WellFormed(h) && Represents(h, nodes, 0) && cut <= |h|
    requires Inv(m, OpsOf(h), stack, seen, longest, partial, cut)
    requires NextPos(nodes, Ids(stack), 0) < |h|
    ensures cut < |h|
  {
    var i := NextPos(nodes, Ids(stack), 0);
    NodeOperation(h, nodes, i);
    OperationNodes(h, nodes, nodes[i].id);
  }

  /** Records the operations on the stack as the longest known partial linearization of each of its members. The
      slice that they share is made when the first of them needs it. */
  method RecordLongest<S, I, O>(calls: seq<CallsEntry<S, I, O>>, longest: Longest, address: nat, ghost stack: seq<nat>)
    returns (longest': Longest)
    requires |calls| == |stack| && forall d :: 0 <= d < |calls| ==> calls[d].entry.id == stack[d] < |longest|
    ensures longest' == Record(longest, stack, address)
  {
    longest' := longest;
    var slice: Option<Slice> := None;
    for i := 0 to |calls|
      invariant longest' == RecordFirst(longest, stack, i, address)
      invariant slice == None || slice == Some(Slice(address, stack))
    {
      var id := calls[i].entry.id;
      if longest'[id] == None || |calls| > |longest'[id].value.ids| {
        if slice == None {
          var ids := StackIds(calls, stack);
          slice := Some(Slice(address, ids));
        }
        longest' := longest'[id := slice];
      }
      assert stack[..i + 1] == stack[..i] + [stack[i]];
    }
    assert stack[..|calls|] == stack;
  }

  /** The ids on the stack, bottom first. */
  method StackIds<S, I, O>(calls: seq<CallsEntry<S, I, O>>, ghost stack: seq<nat>) returns (ids: seq<nat>)
    requires |calls| == |stack| && forall d :: 0 <= d < |calls| ==> calls[d].entry.id == stack[d]
    ensures ids == stack
  {
    ids := [];
    for i := 0 to |calls|
      invariant ids == stack[..i]
    {
      ids := ids + [calls[i].entry.id];
    }
  }

  ghost function RecordFirst(longest: Longest, stack: seq<nat>, k: nat, address: nat): Longest
    requires k <= |stack|
  {
    seq(|longest|, x requires 0 <= x < |longest| =>
      if x in stack[..k] && (longest[x].None? || |stack| > |longest[x].value.ids|) then Some(Slice(address, stack)) else longest[x])
  }

  /** The undo stack as the program keeps it: which node was lifted, and the model state before it. */
  ghost predicate CallsOk<S, I, O>(m: Model<S, I, O>, ops: seq<Operation<I, O>>, calls: seq<CallsEntry<S, I, O>>,
                                   removals: seq<Removal<I, O>>, stack: seq<nat>) {
    && |calls| == |removals| == |stack|
    && forall d :: 0 <= d < |stack| ==>
         calls[d].entry == removals[d].call && StateAfter(m, ops, stack[..d]) == Some(calls[d].state)
  }

  lemma CallsPush<S, I, O>(m: Model<S, I, O>, ops: seq<Operation<I, O>>, calls: seq<CallsEntry<S, I, O>>,
                           removals: seq<Removal<I, O>>, stack: seq<nat>, r: Removal<I, O>, s: S, id: nat)
    requires CallsOk(m, ops, calls, removals, stack)
    requires StateAfter(m, ops, stack) == Some(s)
    ensures CallsOk(m, ops, calls + [CallsEntry(r.call, s)], removals + [r], stack + [id])
  {
    var st := stack + [id];
    assert forall d :: 0 <= d < |stack| ==> st[..d] == stack[..d];
    assert st[..|stack|] == stack;
  }

  lemma CallsPop<S, I, O>(m: Model<S, I, O>, ops: seq<Operation<I, O>>, calls: seq<CallsEntry<S, I, O>>,
                          removals: seq<Removal<I, O>>, stack: seq<nat>)
    requires CallsOk(m, ops, calls, removals, stack) && stack != []
    ensures var k := |stack| - 1; CallsOk(m, ops, calls[..k], removals[..k], stack[..k])
  {
    var k := |stack| - 1;
    assert forall d :: 0 <= d < k ==> stack[..k][..d] == stack[..d];
  }

  /** The removal that linearizing the call under the cursor amounts to. */
  lemma PlanRemoval<I, O>(h: seq<Entry<I, O>>, head: Node<I, O>, nodes: seq<Node<I, O>>,
                          removals: seq<Removal<I, O>>, stack: seq<nat>, cut: nat) returns (r: Removal<I, O>)
    requires WellFormed(h) && Represents(h, nodes, 0) && cut < |h| && head.pos == -1 && head.id == -1
    requires nodes[cut].partner != null && nodes[cut].id !in Ids(stack)
    requires Shape(head, nodes, removals, stack)
    ensures r.Valid() && r.call == nodes[cut] && r.ret in nodes && nodes[cut].id >= 0
    ensures r.Before() == Listed(head, nodes, Ids(stack))
    ensures r.After() == Listed(head, nodes, Ids(stack) + {nodes[cut].id})
    ensures Shape(head, nodes, removals + [r], stack + [nodes[cut].id])
    ensures Apart(removals, r.Before())
  {
    NodeOperation(h, nodes, cut);
    OperationNodes(h, nodes, nodes[cut].id);
    RepresentsOrdered(h, nodes);
    r := RemovalOf(head, nodes, Ids(stack), nodes[cut].id, cut, OpsOf(h)[nodes[cut].id].ret);
    ListedNoDup(head, nodes, Ids(stack));
    ShapePush(head, nodes, removals, stack, r, nodes[cut].id);
    NoneListed(head, nodes, removals, stack, |stack|);
    assert removals[..|stack|] == removals && stack[..|stack|] == stack;
  }

  lemma RepresentsOrdered<I, O>(h: seq<Entry<I, O>>, nodes: seq<Node<I, O>>)
    requires WellFormed(h) && Represents(h, nodes, 0)
    ensures Ordered(nodes)
  {
    forall i | 0 <= i < |nodes| ensures nodes[i].pos == i { assert NodeOf(h, nodes, 0, i); }
  }

  lemma Started<S(!new), I, O>(m: Model<S, I, O>, h: seq<Entry<I, O>>, head: Node<I, O>, nodes: seq<Node<I, O>>,
                               longest: Longest, partial: bool)
    requires WellFormed(h) && Represents(h, nodes, 0)
    requires |longest| == |h| / 2 && forall x :: 0 <= x < |longest| ==> longest[x] == None
    ensures Inv(m, OpsOf(h), [], {}, longest, partial, 0)
    ensures Listed(head, nodes, {}) == [head] + nodes && Ids([]) == {}
  {
    forall p: nat | p < |OpsOf(h)| ensures OpsOf(h)[p].ret >= 0 && OpsOf(h)[p].call >= 0 {}
    InvInitially(m, OpsOf(h), longest, partial, 0);
    RestAll(nodes, |nodes|);
  }

  lemma {:induction false} RestAll<I, O>(nodes: seq<Node<I, O>>, k: nat)
    requires k <= |nodes|
    ensures Rest(nodes, {}, 0, k) == nodes[..k]
  {
    if k > 0 { RestAll(nodes, k - 1); }
  }

  /** How far the search has got. */
  ghost function CodeOf<I, O>(h: seq<Entry<I, O>>, stack: seq<nat>, cut: nat): nat
    requires WellFormed(h)
  {
    var ops := OpsOf(h);
    if Positioned(ops, |h|) && InRange(stack, |ops|) && |stack| <= |ops| then Code(ops, |h|, stack, cut) else 0
  }

  ghost function CodeEnd<I, O>(h: seq<Entry<I, O>>): nat
    requires WellFormed(h)
  {
    CodeLimit(OpsOf(h), |h|)
  }

  lemma StackPositioned<S, I, O>(m: Model<S, I, O>, h: seq<Entry<I, O>>, stack: seq<nat>, cut: nat)
    requires WellFormed(h) && PartialLinearization(m, OpsOf(h), stack) && cut <= |h|
    ensures Positioned(OpsOf(h), |h|) && InRange(stack, |h| / 2) && |stack| <= |h| / 2
    ensures CodeOf(h, stack, cut) == Code(OpsOf(h), |h|, stack, cut) < CodeEnd(h)
  {
    CountIds(stack, |OpsOf(h)|);
    CodeBound(OpsOf(h), |h|, stack, cut);
  }

  /** The search invariant, with the cursor on an unlinearized entry or past the end. */
  ghost predicate TraceOk<S(!new), I, O>(m: Model<S, I, O>, h: seq<Entry<I, O>>, partial: bool, nodes: seq<Node<I, O>>,
                                         longest: Longest, stack: seq<nat>, seen: set<Config<S>>, cut: nat, time: nat)
    requires WellFormed(h) && |nodes| == |h|
  {
    && Inv(m, OpsOf(h), stack, seen, longest, partial, cut)
    && SharingOk(OpsOf(h), |h|, longest, CodeOf(h, stack, cut), time)
    && cut <= |h| && (cut < |h| ==> nodes[cut].id !in Ids(stack))
  }

  /** Linearizing the call under the cursor keeps the trace in order. */
  lemma TracePush<S(!new), I, O>(m: Model<S, I, O>, h: seq<Entry<I, O>>, partial: bool, nodes: seq<Node<I, O>>,
                                 longest: Longest, stack: seq<nat>, seen: set<Config<S>>, cut: nat, time: nat,
                                 state: S, s': S)
    requires WellFormed(h) && Represents(h, nodes, 0) && TraceOk(m, h, partial, nodes, longest, stack, seen, cut, time)
    requires StateAfter(m, OpsOf(h), stack) == Some(state)
    requires cut < |h| && nodes[cut].partner != null && nodes[cut].id >= 0
    requires Apply(m, OpsOf(h), state, nodes[cut].id) == Some(s')
    ensures var id: nat := nodes[cut].id;
            var stack', seen' := stack + [id], seen + {(Ids(stack) + {id}, s')};
            var cut' := NextPos(nodes, Ids(stack'), 0);
            && TraceOk(m, h, partial, nodes, longest, stack', seen', cut', time + 1)
            && CodeOf(h, stack, cut) < CodeOf(h, stack', cut')
            && Ids(stack') == Ids(stack) + {id}
            && StateAfter(m, OpsOf(h), stack') == Some(s')
  {
    var ops, id: nat := OpsOf(h), nodes[cut].id;
    var stack' := stack + [id];
    var cut' := NextPos(nodes, Ids(stack'), 0);
    RestartCursor(m, h, nodes, stack, seen, longest, partial, cut, s');
    StackPositioned(m, h, stack, cut);
    StackPositioned(m, h, stack', cut');
    NodeOperation(h, nodes, cut);
    CodePush(ops, |h|, stack, id, cut');
    hide Inv, SharingOk, Code, Positioned, Apply, StateAfter, Represents;
    SharingMoves(ops, |h|, longest, CodeOf(h, stack, cut), CodeOf(h, stack', cut'), time);
  }

  /** Backtracking at a return entry keeps the trace in order. */
  lemma TracePop<S(!new), I, O>(m: Model<S, I, O>, h: seq<Entry<I, O>>, partial: bool, nodes: seq<Node<I, O>>,
                                longest: Longest, stack: seq<nat>, seen: set<Config<S>>, cut: nat, time: nat, state: S)
    requires WellFormed(h) && Represents(h, nodes, 0) && TraceOk(m, h, partial, nodes, longest, stack, seen, cut, time)
    requires StateAfter(m, OpsOf(h), stack) == Some(state)
    requires cut < |h| && nodes[cut].partner == null && stack != []
    ensures var k := |stack| - 1;
            && stack[k] < |h| / 2 && 0 <= OpsOf(h)[stack[k]].call < |h|
            && var cut' := NextPos(nodes, Ids(stack[..k]), OpsOf(h)[stack[k]].call + 1);
               && TraceOk(m, h, partial, nodes, Updated(partial, longest, stack, time), stack[..k], seen, cut', time + 1)
               && CodeOf(h, stack, cut) < CodeOf(h, stack[..k], cut')
  {
    BacktrackCursor(m, h, nodes, stack, seen, longest, partial, cut, state, time);
    var k := |stack| - 1;
    OperationNodes(h, nodes, stack[k]);
    assert PartialLinearization(m, OpsOf(h), stack);
    hide Inv, SharingOk, StateAfter, Represents, PartialLinearization, Updated, CodeOf;
    var cut' := NextPos(nodes, Ids(stack[..k]), OpsOf(h)[stack[k]].call + 1);
    SharingPop(m, h, stack, cut, cut', longest, partial, time);
  }

  lemma SharingPop<S(!new), I, O>(m: Model<S, I, O>, h: seq<Entry<I, O>>, stack: seq<nat>, cut: nat, cut': nat,
                                  longest: Longest, partial: bool, time: nat)
    requires WellFormed(h) && PartialLinearization(m, OpsOf(h), stack) && stack != [] && cut <= |h| && cut' <= |h|
    requires stack[|stack| - 1] < |h| / 2 && OpsOf(h)[stack[|stack| - 1]].call < cut'
    requires SharingOk(OpsOf(h), |h|, longest, CodeOf(h, stack, cut), time)
    ensures var code' := CodeOf(h, stack[..|stack| - 1], cut');
            CodeOf(h, stack, cut) < code' && SharingOk(OpsOf(h), |h|, Updated(partial, longest, stack, time), code', time + 1)
  {
    var ops, k := OpsOf(h), |stack| - 1;
    PartialPrefix(m, ops, stack, k);
    StackPositioned(m, h, stack, cut);
    StackPositioned(m, h, stack[..k], cut');
    CodePop(ops, |h|, stack, cut, cut');
    CodePop(ops, |h|, stack, |h|, cut');
    hide SharingOk, Code, Positioned, PartialLinearization;
    if partial {
      SharingRecord(ops, |h|, longest, stack, cut, CodeOf(h, stack[..k], cut'), time);
    } else {
      SharingMoves(ops, |h|, longest, CodeOf(h, stack, cut), CodeOf(h, stack[..k], cut'), time);
    }
  }

  /** Moving on past a call that the model refuses or the table prunes keeps the trace in order. */
  lemma TraceAdvance<S(!new), I, O>(m: Model<S, I, O>, h: seq<Entry<I, O>>, partial: bool, nodes: seq<Node<I, O>>,
                                    longest: Longest, stack: seq<nat>, seen: set<Config<S>>, cut: nat, time: nat, state: S)
    requires WellFormed(h) && Represents(h, nodes, 0) && TraceOk(m, h, partial, nodes, longest, stack, seen, cut, time)
    requires StateAfter(m, OpsOf(h), stack) == Some(state)
    requires cut < |h| && nodes[cut].partner != null && nodes[cut].id >= 0
    requires var s := Apply(m, OpsOf(h), state, nodes[cut].id);
             s.Some? ==> Pruned(m, seen, Ids(stack) + {nodes[cut].id}, s.value)
    ensures var cut' := NextPos(nodes, Ids(stack), cut + 1);
            && TraceOk(m, h, partial, nodes, longest, stack, seen, cut', time + 1)
            && CodeOf(h, stack, cut) < CodeOf(h, stack, cut')
  {
    AdvanceCursor(m, h, nodes, stack, seen, longest, partial, cut);
    var cut' := NextPos(nodes, Ids(stack), cut + 1);
    StackPositioned(m, h, stack, cut);
    StackPositioned(m, h, stack, cut');
    CodeAdvance(OpsOf(h), |h|, stack, cut, cut');
    hide Inv, SharingOk, Code, Positioned, Apply, StateAfter, Represents;
    SharingMoves(OpsOf(h), |h|, longest, CodeOf(h, stack, cut), CodeOf(h, stack, cut'), time);
  }

  /** Backtracking, as far as list and undo stack go. */
  lemma PopShape<I, O>(h: seq<Entry<I, O>>, head: Node<I, O>, nodes: seq<Node<I, O>>, removals: seq<Removal<I, O>>, stack: seq<nat>)
    requires WellFormed(h) && Represents(h, nodes, 0) && head.pos == -1 && head.id == -1
    requires Shape(head, nodes, removals, stack) && stack != [] && NoDup(stack) && InRange(stack, |h| / 2)
    ensures var k := |stack| - 1; var r, c := removals[k], OpsOf(h)[stack[k]].call;
            && 0 <= c < |h| && r.Valid() && r.call == nodes[c] && r.call.pos == c && r.call.id == stack[k] && r.call.partner != null
            && r.Before() == Listed(head, nodes, Ids(stack[..k])) && r.After() == Listed(head, nodes, Ids(stack))
            && Apart(removals[..k], r.Before()) && Shape(head, nodes, removals[..k], stack[..k])
            && Ids(stack) - {stack[k]} == Ids(stack[..k])
  {
    var k := |stack| - 1;
    assert Step(head, nodes, removals[k], stack, k);
    RepresentsOrdered(h, nodes);
    OperationNodes(h, nodes, stack[k]);
    NodeOperation(h, nodes, removals[k].call.pos);
    ShapePop(head, nodes, removals, stack);
    NoneListed(head, nodes, removals, stack, k);
    assert stack == stack[..k] + [stack[k]] && stack[..k + 1] == stack;
    IdsSnoc(stack[..k], stack[k]);
  }


  /** Undo stack and model states. */
  ghost predicate StackOk<S(!new), I, O>(m: Model<S, I, O>, h: seq<Entry<I, O>>, head: Node<I, O>, nodes: seq<Node<I, O>>,
                                         calls: seq<CallsEntry<S, I, O>>, state: S, stack: seq<nat>, removals: seq<Removal<I, O>>)
    requires WellFormed(h)
  {
    && Represents(h, nodes, 0) && head.pos == -1 && head.id == -1
    && Shape(head, nodes, removals, stack)
    && CallsOk(m, OpsOf(h), calls, removals, stack)
    && StateAfter(m, OpsOf(h), stack) == Some(state)
  }

  lemma StackPush<S(!new), I, O>(m: Model<S, I, O>, h: seq<Entry<I, O>>, head: Node<I, O>, nodes: seq<Node<I, O>>,
                                 calls: seq<CallsEntry<S, I, O>>, state: S, stack: seq<nat>, removals: seq<Removal<I, O>>,
                                 cut: nat, s': S)
    returns (r: Removal<I, O>)
    requires WellFormed(h) && StackOk(m, h, head, nodes, calls, state, stack, removals)
    requires cut < |h| && nodes[cut].partner != null && nodes[cut].id !in Ids(stack) && nodes[cut].id >= 0
    requires StateAfter(m, OpsOf(h), stack + [nodes[cut].id]) == Some(s')
    ensures r.Valid() && r.call == nodes[cut] && r.ret in nodes && Apart(removals, r.Before())
    ensures r.Before() == Listed(head, nodes, Ids(stack)) && r.After() == Listed(head, nodes, Ids(stack) + {nodes[cut].id})
    ensures StackOk(m, h, head, nodes, calls + [CallsEntry(nodes[cut], state)], s', stack + [nodes[cut].id], removals + [r])
  {
    r := PlanRemoval(h, head, nodes, removals, stack, cut);
    CallsPush(m, OpsOf(h), calls, removals, stack, r, state, nodes[cut].id);
  }

  lemma StackPop<S(!new), I, O>(m: Model<S, I, O>, h: seq<Entry<I, O>>, head: Node<I, O>, nodes: seq<Node<I, O>>,
                                calls: seq<CallsEntry<S, I, O>>, state: S, stack: seq<nat>, removals: seq<Removal<I, O>>)
    requires WellFormed(h) && StackOk(m, h, head, nodes, calls, state, stack, removals) && calls != []
    ensures |calls| == |stack| == |removals|
    ensures StackOk(m, h, head, nodes, calls[..|calls| - 1], calls[|calls| - 1].state, stack[..|calls| - 1], removals[..|calls| - 1])
  {
    ShapePop(head, nodes, removals, stack);
    CallsPop(m, OpsOf(h), calls, removals, stack);
  }

  /** The removal on top of the undo stack, and the call it took out. */
  lemma TopRemoval<S(!new), I, O>(m: Model<S, I, O>, h: seq<Entry<I, O>>, head: Node<I, O>, nodes: seq<Node<I, O>>,
                                  calls: seq<CallsEntry<S, I, O>>, state: S, stack: seq<nat>, removals: seq<Removal<I, O>>,
                                  k: nat, c: nat)
    requires WellFormed(h) && StackOk(m, h, head, nodes, calls, state, stack, removals)
    requires NoDup(stack) && InRange(stack, |h| / 2) && k + 1 == |stack| == |calls| == |removals| && c == OpsOf(h)[stack[k]].call
    ensures c < |h| && calls[k].entry == nodes[c] == removals[k].call && removals[k].Valid()
    ensures nodes[c].id == stack[k] && nodes[c].id !in Ids(stack[..k])
    ensures removals[k].Before() == Listed(head, nodes, Ids(stack[..k])) && removals[k].After() == Listed(head, nodes, Ids(stack))
    ensures Apart(removals[..k], removals[k].Before())
    ensures Ids(stack) - {stack[k]} == Ids(stack[..k])
  {
    PopShape(h, head, nodes, removals, stack);
  }

  lemma CallIds<S(!new), I, O>(m: Model<S, I, O>, h: seq<Entry<I, O>>, head: Node<I, O>, nodes: seq<Node<I, O>>,
                               calls: seq<CallsEntry<S, I, O>>, state: S, stack: seq<nat>, removals: seq<Removal<I, O>>)
    requires WellFormed(h) && StackOk(m, h, head, nodes, calls, state, stack, removals)
    ensures |calls| == |stack| && forall d :: 0 <= d < |stack| ==> calls[d].entry.id == stack[d]
  {
    forall d | 0 <= d < |stack| ensures calls[d].entry.id == stack[d] {
      assert Step(head, nodes, removals[d], stack, d);
    }
  }

  ghost predicate Within<I, O>(l: seq<Node<I, O>>, head: Node<I, O>, nodes: seq<Node<I, O>>) {
    forall k :: 0 <= k < |l| ==> l[k] == head || l[k] in nodes
  }

  /** The heap: list, undo information, bit set and memo table agree with the stack. */
  ghost predicate HeapOk<S(!new), I, O>(head: Node<I, O>, nodes: seq<Node<I, O>>, linearized: array<Word>, cache: Cache.Table<S>,
                                        n: nat, stack: seq<nat>, removals: seq<Removal<I, O>>, seen: set<Config<S>>,
                                        owned: set<array<Word>>)
    reads head, nodes, linearized, owned
  {
    && Within(Listed(head, nodes, Ids(stack)), head, nodes)
    && Linked(Listed(head, nodes, Ids(stack)))
    && Undoable(nodes, removals)
    && linearized.Length == Chunks(n) && Members(linearized[..]) == Ids(stack)
    && linearized !in owned && Cache.Holds(cache, seen, Chunks(n), owned)
  }

  /** Linearizes `entry`: memoises the new configuration, sets its bit, lifts it and restarts at the front. */
  method Linearize<S(!new), I, O>(head: Node<I, O>, entry: Node<I, O>, newEntry: Cache.CacheEntry<S>, cache: Cache.Table<S>,
                                  linearized: array<Word>, ghost nodes: seq<Node<I, O>>, ghost n: nat, ghost stack: seq<nat>,
                                  ghost removals: seq<Removal<I, O>>, ghost seen: set<Config<S>>, ghost owned: set<array<Word>>,
                                  ghost r: Removal<I, O>)
    returns (cache': Cache.Table<S>, next: Node?<I, O>)
    requires HeapOk(head, nodes, linearized, cache, n, stack, removals, seen, owned)
    requires 0 <= entry.id < n
    requires r.Valid() && r.call == entry && entry in nodes && r.ret in nodes && Apart(removals, r.Before())
    requires Ids(stack + [entry.id]) == Ids(stack) + {entry.id}
    requires r.Before() == Listed(head, nodes, Ids(stack)) && r.After() == Listed(head, nodes, Ids(stack + [entry.id]))
    requires newEntry.linearized != linearized && newEntry.linearized.Length == linearized.Length
    requires Members(newEntry.linearized[..]) == Ids(stack) + {entry.id}
    requires Within(Listed(head, nodes, Ids(stack + [entry.id])), head, nodes)
    modifies head, nodes, linearized
    ensures HeapOk(head, nodes, linearized, cache', n, stack + [entry.id], removals + [r],
                   seen + {(Ids(stack) + {entry.id}, newEntry.state)}, owned + {newEntry.linearized})
    ensures next == NodeAt(nodes, NextPos(nodes, Ids(stack + [entry.id]), 0))
  {
    hide Listed, Linked, Undoable, Members, HashOf, Apart, NextPos, NoDup, Cache.Holds, Cache.Insert, Removal<I, O>.Valid;
    var hash := Hash(newEntry.linearized);
    cache' := Cache.Insert(cache, hash, newEntry);
    Cache.InsertHolds(cache, seen, Chunks(n), owned, hash, newEntry);
    Set(linearized, entry.id);
    LiftNext(entry, r, nodes, removals);
    Following(head, nodes, Ids(stack + [entry.id]));
    next := head.next;
  }

  /** Undoes the linearization of `entry`, the last one, and moves on behind it. */
  method Backtrack<S(!new), I, O>(head: Node<I, O>, entry: Node<I, O>, ghost cache: Cache.Table<S>,
                                  linearized: array<Word>, ghost nodes: seq<Node<I, O>>, ghost n: nat, ghost stack: seq<nat>,
                                  ghost removals: seq<Removal<I, O>>, ghost seen: set<Config<S>>, ghost owned: set<array<Word>>,
                                  ghost r: Removal<I, O>, ghost c: nat)
    returns (next: Node?<I, O>)
    requires 0 <= entry.id < n && c < |nodes| && entry == nodes[c] && entry.id !in Ids(stack)
    requires HeapOk(head, nodes, linearized, cache, n, stack + [entry.id], removals + [r], seen, owned)
    requires r.Valid() && r.call == entry && Apart(removals, r.Before())
    requires Ids(stack + [entry.id]) - {entry.id} == Ids(stack)
    requires Within(Listed(head, nodes, Ids(stack)), head, nodes)
    requires r.Before() == Listed(head, nodes, Ids(stack)) && r.After() == Listed(head, nodes, Ids(stack + [entry.id]))
    modifies head, nodes, linearized
    ensures HeapOk(head, nodes, linearized, cache, n, stack, removals, seen, owned)
    ensures next == NodeAt(nodes, NextPos(nodes, Ids(stack), c + 1))
  {
    Clear(linearized, entry.id);
    UnliftLast(entry, r, nodes, removals);
    FollowingAt(head, nodes, Ids(stack), c);
    next := entry.next;
  }

  /** Before the search: the list of all entries behind a head, an empty bit set and nothing recorded. */
  method Prepare<I, O>(h: seq<Entry<I, O>>)
    returns (head: Node<I, O>, entry: Node?<I, O>, n: nat, linearized: array<Word>, ghost nodes: seq<Node<I, O>>)
    requires WellFormed(h)
    ensures fresh(head) && fresh(linearized) && fresh(nodes)
    ensures Represents(h, nodes, 0) && head.pos == -1 && head.id == -1
    ensures Linked([head] + nodes) && entry == NodeAt(nodes, 0)
    ensures n == |h| / 2 && linearized.Length == Chunks(n) && Members(linearized[..]) == {}
  {
    entry, nodes := MakeLinkedEntries(h);
    var len := Length(entry, nodes);
    n := len / 2;
    linearized := NewBitset(n);
    var newHead := new Node<I, O>(Nothing, null, -1, -1);
    head := InsertBefore(newHead, entry);
  }

  lemma ReadyToSearch<S(!new), I, O>(m: Model<S, I, O>, h: seq<Entry<I, O>>, head: Node<I, O>, nodes: seq<Node<I, O>>,
                                     linearized: array<Word>, longest: Longest, partial: bool)
    requires WellFormed(h) && Represents(h, nodes, 0) && head.pos == -1 && head.id == -1
    requires Linked([head] + nodes) && linearized.Length == Chunks(|h| / 2) && Members(linearized[..]) == {}
    requires |longest| == |h| / 2 && forall x :: 0 <= x < |longest| ==> longest[x] == None
    ensures HeapOk<S, I, O>(head, nodes, linearized, map[], |h| / 2, [], [], {}, {})
    ensures StackOk(m, h, head, nodes, [], m.init, [], [])
    ensures |nodes| == |h| && TraceOk(m, h, partial, nodes, longest, [], {}, 0, 0)
  {
    Started(m, h, head, nodes, longest, partial);
  }

  /** What the loop finds under the cursor. */
  lemma AtCursor<S(!new), I, O>(m: Model<S, I, O>, h: seq<Entry<I, O>>, partial: bool, head: Node<I, O>, nodes: seq<Node<I, O>>,
                                linearized: array<Word>, cache: Cache.Table<S>, n: nat,
                                calls: seq<CallsEntry<S, I, O>>, state: S, longest: Longest,
                                stack: seq<nat>, removals: seq<Removal<I, O>>, seen: set<Config<S>>, owned: set<array<Word>>, cut: nat, time: nat)
    requires WellFormed(h) && head.next != null && n == |h| / 2
    requires HeapOk(head, nodes, linearized, cache, n, stack, removals, seen, owned)
    requires StackOk(m, h, head, nodes, calls, state, stack, removals)
    requires TraceOk(m, h, partial, nodes, longest, stack, seen, cut, time)
    ensures Represents(h, nodes, 0) && |nodes| == |h| && cut < |h| && NodeAt(nodes, cut) == nodes[cut] && head.pos == -1
    ensures 0 <= nodes[cut].id < |h| / 2 && nodes[cut].id !in Ids(stack) && nodes[cut] in nodes
    ensures nodes[cut].partner != null ==>
              && nodes[cut].value.Input? && nodes[cut].partner.value.Output?
              && var (ok, s) := m.step(state, nodes[cut].value.input, nodes[cut].partner.value.output);
                 Apply(m, OpsOf(h), state, nodes[cut].id) == if ok then Some(s) else None
    ensures StateAfter(m, OpsOf(h), stack) == Some(state) && |calls| == |stack| == |removals|
    ensures NoDup(stack) && InRange(stack, |h| / 2) && forall d :: 0 <= d < |stack| ==> stack[d] < |h| / 2
    ensures Linked(Listed(head, nodes, Ids(stack))) && linearized !in owned
    ensures CodeOf(h, stack, cut) < CodeEnd(h)
  {
    Following(head, nodes, Ids(stack));
    StackPositioned(m, h, stack, cut);
    CursorInside(m, h, nodes, stack, seen, longest, partial, cut);
    NodeOperation(h, nodes, cut);
  }

  /** What holds once the list is empty. */
  lemma AtEnd<S(!new), I, O>(m: Model<S, I, O>, h: seq<Entry<I, O>>, partial: bool, head: Node<I, O>, nodes: seq<Node<I, O>>,
                             linearized: array<Word>, cache: Cache.Table<S>, n: nat,
                             calls: seq<CallsEntry<S, I, O>>, state: S, longest: Longest,
                             stack: seq<nat>, removals: seq<Removal<I, O>>, seen: set<Config<S>>, owned: set<array<Word>>, cut: nat, time: nat)
    requires WellFormed(h) && head.next == null
    requires HeapOk(head, nodes, linearized, cache, n, stack, removals, seen, owned)
    requires StackOk(m, h, head, nodes, calls, state, stack, removals)
    requires TraceOk(m, h, partial, nodes, longest, stack, seen, cut, time)
    ensures Linearization(m, OpsOf(h), stack)
    ensures |calls| == |stack| && forall d :: 0 <= d < |stack| ==> calls[d].entry.id == stack[d]
  {
    Following(head, nodes, Ids(stack));
    Finished(m, h, head, nodes, stack);
    CallIds(m, h, head, nodes, calls, state, stack, removals);
  }

  lemma FullOutcome<S(!new), I(!new), O(!new)>(m: Model<S, I, O>, h: seq<Entry<I, O>>, partial: bool, ids: seq<nat>, longest: Longest)
    requires WellFormed(h) && Linearization(m, OpsOf(h), ids)
    requires |longest| == |h| / 2 && exists slice: Slice :: slice.ids == ids && forall x :: 0 <= x < |longest| ==> longest[x] == Some(slice)
    ensures Outcome(m, OpsOf(h), partial, false, true, longest)
  {
    OpsTimeline(h);
    CompletePartialIsLinearization(m, OpsOf(h), ids);
    CountIds(ids, |OpsOf(h)|);
    forall x: nat | x < |longest| ensures x in ids { assert x in AllIds(|OpsOf(h)|); }
  }

  lemma UpdatedEither(partial: bool, longest: Longest, stack: seq<nat>, time: nat)
    ensures Updated(partial, longest, stack, time) == if partial then Record(longest, stack, time) else longest
    ensures |Record(longest, stack, time)| == |longest|
  {
  }

  /** The lists of the search consist of the head and the entry nodes. */
  lemma ListedWithin<I, O>(h: seq<Entry<I, O>>, head: Node<I, O>, nodes: seq<Node<I, O>>, b: set<nat>)
    requires WellFormed(h) && Represents(h, nodes, 0) && head.pos == -1
    ensures Within(Listed(head, nodes, b), head, nodes)
  {
    RepresentsOrdered(h, nodes);
    ListedNoDup(head, nodes, b);
  }

  /** Looks up the configuration that linearizing `id` would lead to. */
  method Probe<S(!new), I, O>(m: Model<S, I, O>, id: nat, newState: S, cache: Cache.Table<S>, linearized: array<Word>,
                              ghost head: Node<I, O>, ghost nodes: seq<Node<I, O>>, ghost n: nat, ghost stack: seq<nat>,
                              ghost removals: seq<Removal<I, O>>, ghost seen: set<Config<S>>, ghost owned: set<array<Word>>)
    returns (e: Cache.CacheEntry<S>, found: bool)
    requires HeapOk(head, nodes, linearized, cache, n, stack, removals, seen, owned) && id < n
    ensures fresh(e.linearized) && e.linearized.Length == linearized.Length && e.state == newState
    ensures Members(e.linearized[..]) == Ids(stack) + {id}
    ensures found <==> Pruned(m, seen, Ids(stack) + {id}, newState)
    ensures HeapOk(head, nodes, linearized, cache, n, stack, removals, seen, owned)
  {
    hide Listed, Linked, Undoable, Members, Cache.Holds, Pruned;
    var newLinearized := Clone(linearized);
    Set(newLinearized, id);
    e := Cache.CacheEntry(newLinearized, newState);
    found := Cache.CacheContains(m, cache, e, seen, Chunks(n), owned);
  }

  lemma KilledOutcome<S(!new), I(!new), O(!new)>(m: Model<S, I, O>, h: seq<Entry<I, O>>, partial: bool, nodes: seq<Node<I, O>>,
                                     longest: Longest, stack: seq<nat>, seen: set<Config<S>>, cut: nat, time: nat)
    requires WellFormed(h) && |nodes| == |h| && TraceOk(m, h, partial, nodes, longest, stack, seen, cut, time)
    requires !partial ==> forall x :: 0 <= x < |longest| ==> longest[x] == None
    ensures Outcome(m, OpsOf(h), partial, true, false, longest)
  {
  }

  lemma FailedOutcome<S(!new), I(!new), O(!new)>(m: Model<S, I, O>, h: seq<Entry<I, O>>, partial: bool, nodes: seq<Node<I, O>>,
                                     longest: Longest, stack: seq<nat>, seen: set<Config<S>>, cut: nat, time: nat)
    requires WellFormed(h) && Represents(h, nodes, 0) && TraceOk(m, h, partial, nodes, longest, stack, seen, cut, time)
    requires cut < |h| && nodes[cut].partner == null && stack == []
    requires !partial ==> forall x :: 0 <= x < |longest| ==> longest[x] == None
    ensures Outcome(m, OpsOf(h), partial, false, false, longest)
  {
    if EqualitySound(m) { GiveUp(m, h, nodes, seen, longest, partial, cut); }
  }

  /** A call under the cursor: linearizes it if the model accepts it and the table has not seen the result,
      and moves on otherwise. */
  method Advance<S(!new), I(!new), O(!new)>(
    m: Model<S, I, O>, head: Node<I, O>, entry: Node<I, O>, linearized: array<Word>, cache: Cache.Table<S>,
    calls: seq<CallsEntry<S, I, O>>, state: S,
    ghost h: seq<Entry<I, O>>, ghost partial: bool, ghost nodes: seq<Node<I, O>>, ghost longest: Longest,
    ghost stack: seq<nat>, ghost removals: seq<Removal<I, O>>, ghost seen: set<Config<S>>, ghost owned: set<array<Word>>,
    ghost cut: nat, ghost time: nat)
    returns (entry': Node?<I, O>, cache': Cache.Table<S>, calls': seq<CallsEntry<S, I, O>>, state': S, ghost stack': seq<nat>,
             ghost removals': seq<Removal<I, O>>, ghost seen': set<Config<S>>, ghost owned': set<array<Word>>, ghost cut': nat)
    requires WellFormed(h) && head.next != null && |nodes| == |h|
    requires HeapOk(head, nodes, linearized, cache, |h| / 2, stack, removals, seen, owned)
    requires StackOk(m, h, head, nodes, calls, state, stack, removals)
    requires TraceOk(m, h, partial, nodes, longest, stack, seen, cut, time)
    requires entry == NodeAt(nodes, cut) && entry.partner != null
    modifies head, nodes, linearized
    ensures HeapOk(head, nodes, linearized, cache', |h| / 2, stack', removals', seen', owned') && fresh(owned' - owned)
    ensures StackOk(m, h, head, nodes, calls', state', stack', removals')
    ensures TraceOk(m, h, partial, nodes, longest, stack', seen', cut', time + 1)
    ensures entry' == NodeAt(nodes, cut')
    ensures CodeOf(h, stack, cut) < CodeOf(h, stack', cut')
  {
    hide *;
    ghost var n := |h| / 2;
    AtCursor(m, h, partial, head, nodes, linearized, cache, n, calls, state, longest, stack, removals, seen, owned, cut, time);
    cache', calls', state', stack', removals', seen', owned' := cache, calls, state, stack, removals, seen, owned;
    var matching := entry.partner;
    var (accepted, newState) := m.step(state, entry.value.input, matching.value.output);
    FollowingAt(head, nodes, Ids(stack), cut);
    cut' := NextPos(nodes, Ids(stack), cut + 1);
    if accepted {
      var newCacheEntry, found := Probe(m, entry.id, newState, cache, linearized, head, nodes, n, stack, removals, seen, owned);
      if !found {
        ghost var id: nat := entry.id;
        TracePush(m, h, partial, nodes, longest, stack, seen, cut, time, state, newState);
        ghost var r := StackPush(m, h, head, nodes, calls, state, stack, removals, cut, newState);
        ListedWithin(h, head, nodes, Ids(stack + [id]));
        calls' := calls + [CallsEntry(entry, state)];
        state' := newState;
        cache', entry' := Linearize(head, entry, newCacheEntry, cache, linearized, nodes, n, stack, removals, seen, owned, r);
        seen', owned' := seen + {(Ids(stack) + {id}, newState)}, owned + {newCacheEntry.linearized};
        stack', removals' := stack + [id], removals + [r];
        cut' := NextPos(nodes, Ids(stack'), 0);
      } else {
        TraceAdvance(m, h, partial, nodes, longest, stack, seen, cut, time, state);
        entry' := entry.next;
      }
    } else {
      TraceAdvance(m, h, partial, nodes, longest, stack, seen, cut, time, state);
      entry' := entry.next;
    }
  }

  /** A return under the cursor: undoes the last linearization and moves on behind it. */
  method Retreat<S(!new), I(!new), O(!new)>(
    m: Model<S, I, O>, head: Node<I, O>, linearized: array<Word>, ghost cache: Cache.Table<S>,
    calls: seq<CallsEntry<S, I, O>>, ghost state: S, computePartial: bool, longest: Longest,
    ghost h: seq<Entry<I, O>>, ghost nodes: seq<Node<I, O>>,
    ghost stack: seq<nat>, ghost removals: seq<Removal<I, O>>, ghost seen: set<Config<S>>, ghost owned: set<array<Word>>,
    ghost cut: nat, time: nat)
    returns (entry: Node?<I, O>, calls': seq<CallsEntry<S, I, O>>, state': S, longest': Longest,
             ghost stack': seq<nat>, ghost removals': seq<Removal<I, O>>, ghost cut': nat)
    requires WellFormed(h) && head.next != null && |nodes| == |h| && |longest| == |h| / 2
    requires HeapOk(head, nodes, linearized, cache, |h| / 2, stack, removals, seen, owned)
    requires StackOk(m, h, head, nodes, calls, state, stack, removals)
    requires TraceOk(m, h, computePartial, nodes, longest, stack, seen, cut, time)
    requires cut < |nodes| && nodes[cut].partner == null && calls != []
    modifies head, nodes, linearized
    ensures HeapOk(head, nodes, linearized, cache, |h| / 2, stack', removals', seen, owned)
    ensures StackOk(m, h, head, nodes, calls', state', stack', removals')
    ensures TraceOk(m, h, computePartial, nodes, longest', stack', seen, cut', time + 1)
    ensures entry == NodeAt(nodes, cut') && |longest'| == |longest| && (!computePartial ==> longest' == longest)
    ensures CodeOf(h, stack, cut) < CodeOf(h, stack', cut')
  {
    hide *;
    ghost var n, k := |h| / 2, |calls| - 1;
    AtCursor(m, h, computePartial, head, nodes, linearized, cache, n, calls, state, longest, stack, removals, seen, owned, cut, time);
    ghost var c := OpsOf(h)[stack[k]].call;
    StackPop(m, h, head, nodes, calls, state, stack, removals);
    CallIds(m, h, head, nodes, calls, state, stack, removals);
    TracePop(m, h, computePartial, nodes, longest, stack, seen, cut, time, state);
    TopRemoval(m, h, head, nodes, calls, state, stack, removals, k, c);
    UpdatedEither(computePartial, longest, stack, time);
    ListedWithin(h, head, nodes, Ids(stack[..k]));
    longest' := longest;
    if computePartial {
      longest' := RecordLongest(calls, longest, time, stack);
    }
    var callsTop := calls[|calls| - 1];
    state' := callsTop.state;
    calls' := calls[..|calls| - 1];
    stack', removals' := stack[..k], removals[..k];
    assert stack == stack' + [stack[k]] && removals == removals' + [removals[k]];
    entry := Backtrack(head, callsTop.entry, cache, linearized, nodes, n, stack', removals', seen, owned, removals[k], c);
    cut' := NextPos(nodes, Ids(stack'), c + 1);
  }

  /** Decides whether the history `h` is linearizable; `kill(t)` says whether the kill flag is up at turn `t`.
      A search that was not killed answers in full. */
  method CheckSingle<S(!new), I(!new), O(!new)>(m: Model<S, I, O>, h: seq<Entry<I, O>>, computePartial: bool, kill: nat -> bool)
    returns (ok: bool, longest: Longest)
    requires WellFormed(h)
    ensures || Outcome(m, OpsOf(h), computePartial, false, ok, longest)
            || (Outcome(m, OpsOf(h), computePartial, true, ok, longest) && exists t :: kill(t))
  {
    hide *;
    var head, entry, n, linearized, nodes := Prepare(h);
    var cache: Cache.Table<S> := map[];
    var calls: seq<CallsEntry<S, I, O>> := [];
    longest := seq(n, _ => None);
    var state := m.init;
    var time := 0;

    ghost var stack: seq<nat>, removals: seq<Removal<I, O>> := [], [];
    ghost var seen: set<Config<S>>, owned: set<array<Word>> := {}, {};
    ghost var cut: nat := 0;
    ReadyToSearch(m, h, head, nodes, linearized, longest, computePartial);

    while head.next != null
      invariant fresh(nodes) && fresh(head) && fresh(linearized) && fresh(owned)
      invariant |longest| == n == |h| / 2 && |nodes| == |h|
      invariant HeapOk(head, nodes, linearized, cache, n, stack, removals, seen, owned)
      invariant StackOk(m, h, head, nodes, calls, state, stack, removals)
      invariant TraceOk(m, h, computePartial, nodes, longest, stack, seen, cut, time)
      invariant entry == NodeAt(nodes, cut)
      invariant !computePartial ==> forall x :: 0 <= x < n ==> longest[x] == None
      decreases CodeEnd(h) - CodeOf(h, stack, cut)
    {
      AtCursor(m, h, computePartial, head, nodes, linearized, cache, n, calls, state, longest, stack, removals, seen, owned, cut, time);
      if kill(time) {
        KilledOutcome(m, h, computePartial, nodes, longest, stack, seen, cut, time);
        return false, longest;
      }
      if entry.partner != null {
        entry, cache, calls, state, stack, removals, seen, owned, cut :=
          Advance(m, head, entry, linearized, cache, calls, state, h, computePartial, nodes, longest, stack, removals, seen, owned, cut, time);
      } else {
        if |calls| == 0 {
          FailedOutcome(m, h, computePartial, nodes, longest, stack, seen, cut, time);
          return false, longest;
        }
        entry, calls, state, longest, stack, removals, cut :=
          Retreat(m, head, linearized, cache, calls, state, computePartial, longest, h, nodes, stack, removals, seen, owned, cut, time);
      }
      time := time + 1;
    }
    AtEnd(m, h, computePartial, head, nodes, linearized, cache, n, calls, state, longest, stack, removals, seen, owned, cut, time);
    var ids := StackIds(calls, stack);
    var slice := Slice(time, ids);
    longest := seq(n, _ => Some(slice));
    FullOutcome(m, h, computePartial, ids, longest);
    return true, longest;
  }
}
