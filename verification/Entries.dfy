/** Histories as the search reads them: a list of call and return entries. */
module Entries {
  import opened Wrappers
  import opened Sequences
  import opened Linearizability
  import opened Search

  datatype Entry<+I, +O> =
    | Call(id: int, input: I, time: int, clientId: int)
    | Return(id: int, output: O, time: int, clientId: int)

  ghost predicate IsCall<I, O>(h: seq<Entry<I, O>>, id: int, i: nat) {
    i < |h| && h[i].Call? && h[i].id == id
  }

  ghost predicate IsReturn<I, O>(h: seq<Entry<I, O>>, id: int, i: nat) {
    i < |h| && h[i].Return? && h[i].id == id
  }

  /** Each id below half the length occurs exactly once as a call and exactly once as a return, in either order. */
  ghost predicate WellFormed<I, O>(h: seq<Entry<I, O>>) {
    && |h| % 2 == 0
    && (forall i :: 0 <= i < |h| ==> 0 <= h[i].id < |h| / 2)
    && (forall i, j :: 0 <= i < j < |h| && h[i].id == h[j].id ==> h[i].Call? != h[j].Call?)
    && (forall id :: 0 <= id < |h| / 2 ==> Occurs(h, id))
  }

  ghost predicate Occurs<I, O>(h: seq<Entry<I, O>>, id: int) {
    (exists i: nat :: IsCall(h, id, i)) && (exists i: nat :: IsReturn(h, id, i))
  }

  ghost function CallAt<I, O>(h: seq<Entry<I, O>>, id: nat): (i: nat)
    requires WellFormed(h) && id < |h| / 2
    ensures IsCall(h, id, i)
  {
    assert Occurs(h, id);
    var i: nat :| IsCall(h, id, i); i
  }

  ghost function ReturnAt<I, O>(h: seq<Entry<I, O>>, id: nat): (i: nat)
    requires WellFormed(h) && id < |h| / 2
    ensures IsReturn(h, id, i)
  {
    assert Occurs(h, id);
    var i: nat :| IsReturn(h, id, i); i
  }

  /** The operations of an entry list, timed by the positions of their entries. */
  ghost function OpsOf<I, O>(h: seq<Entry<I, O>>): (ops: seq<Operation<I, O>>)
    requires WellFormed(h)
    ensures |ops| == |h| / 2
  {
    seq(|h| / 2, id requires 0 <= id < |h| / 2 =>
      var c, r := CallAt(h, id), ReturnAt(h, id);
      Operation(h[c].clientId, h[c].input, c, h[r].output, r))
  }

  /** Position and id determine each other. */
  lemma EntryAt<I, O>(h: seq<Entry<I, O>>, i: nat)
    requires WellFormed(h) && i < |h|
    ensures h[i].Call? ==> OpsOf(h)[h[i].id].call == i && OpsOf(h)[h[i].id].input == h[i].input
    ensures h[i].Return? ==> OpsOf(h)[h[i].id].ret == i && OpsOf(h)[h[i].id].output == h[i].output
  {
    if h[i].Call? {
      var c := CallAt(h, h[i].id);
      assert c == i;
    } else {
      var r := ReturnAt(h, h[i].id);
      assert r == i;
    }
  }

  lemma OpsTimeline<I, O>(h: seq<Entry<I, O>>)
    requires WellFormed(h)
    ensures Timeline(OpsOf(h))
  {
    var ops := OpsOf(h);
    forall o, p | 0 <= o < |ops| && 0 <= p < |ops| ensures ops[o].call != ops[p].ret {
      assert h[ops[o].call].Call? && h[ops[p].ret].Return?;
    }
  }
}
