/** The specification side of the checker: histories of timed operations, sequential
    models, and what it means for (part of) a history to be linearizable. */
module Linearizability {
  import opened Wrappers
  import opened Sequences

  /** One operation of a concurrent history, with its invocation and response times. */
  datatype Operation<+I, +O> = Operation(clientId: int, input: I, call: int, output: O, ret: int)

  /** A sequential specification: `step` says whether an operation with this input and
      output may happen in a state, and what the next state is. `equal` is the equality
      on states that the memo table uses. */
  datatype Model<!S, !I, !O> = Model(init: S, step: (S, I, O) -> (bool, S), equal: (S, S) -> bool)

  /** What a user-supplied state equality has to satisfy for memoisation to be safe:
      whatever one state can do, an equal state can do as well. */
  ghost predicate EqualitySound<S(!new), I(!new), O(!new)>(m: Model<S, I, O>) {
    && (forall s :: m.equal(s, s))
    && (forall s, t, u :: m.equal(s, t) && m.equal(t, u) ==> m.equal(s, u))
    && (forall s, t, i, o :: m.equal(s, t) && m.step(s, i, o).0 ==>
          m.step(t, i, o).0 && m.equal(m.step(s, i, o).1, m.step(t, i, o).1))
  }

  function Apply<S, I, O>(m: Model<S, I, O>, ops: seq<Operation<I, O>>, s: S, id: nat): Option<S> {
    if id < |ops| then
      var (ok, t) := m.step(s, ops[id].input, ops[id].output);
      if ok then Some(t) else None
    else None
  }

  /** Runs the operations named by `l`, in order, from the initial state. */
  function StateAfter<S, I, O>(m: Model<S, I, O>, ops: seq<Operation<I, O>>, l: seq<nat>): Option<S> {
    if l == [] then Some(m.init) else
      var s := StateAfter(m, ops, l[..|l| - 1]);
      if s.Some? then Apply(m, ops, s.value, l[|l| - 1]) else None
  }

  /** Real-time order: `a` responded before `b` was invoked. */
  predicate Precedes<I, O>(ops: seq<Operation<I, O>>, a: nat, b: nat)
    requires a < |ops| && b < |ops|
  {
    ops[a].ret < ops[b].call
  }

  /** A linearization: every operation exactly once, never against real-time order (so none
      that returns before it is called), and accepted by the sequential model. */
  ghost predicate Linearization<S, I, O>(m: Model<S, I, O>, ops: seq<Operation<I, O>>, l: seq<nat>) {
    && |l| == |ops| && NoDup(l) && InRange(l, |ops|)
    && (forall i, j :: 0 <= i <= j < |l| ==> !Precedes(ops, l[j], l[i]))
    && StateAfter(m, ops, l).Some?
  }

  ghost predicate Linearizable<S, I, O>(m: Model<S, I, O>, ops: seq<Operation<I, O>>) {
    exists l :: Linearization(m, ops, l)
  }

  ghost predicate PredecessorsFirst<I, O>(ops: seq<Operation<I, O>>, l: seq<nat>, j: nat)
    requires j < |l| && l[j] < |ops|
  {
    forall p: nat :: p < |ops| && Precedes(ops, p, l[j]) ==> p in l[..j]
  }

  /** A partial linearization: some of the operations, each only after everything that
      precedes it in real time, and accepted by the sequential model. */
  ghost predicate PartialLinearization<S, I, O>(m: Model<S, I, O>, ops: seq<Operation<I, O>>, l: seq<nat>) {
    && NoDup(l) && InRange(l, |ops|)
    && (forall j :: 0 <= j < |l| ==> PredecessorsFirst(ops, l, j))
    && StateAfter(m, ops, l).Some?
  }

  /** The two notions agree: a linearization is a partial linearization that leaves nothing out. */
  lemma CompletePartialIsLinearization<S, I, O>(m: Model<S, I, O>, ops: seq<Operation<I, O>>, l: seq<nat>)
    ensures Linearization(m, ops, l) <==> PartialLinearization(m, ops, l) && |l| == |ops|
  {
    if Linearization(m, ops, l) {
      CountIds(l, |ops|);
      forall j | 0 <= j < |l| ensures PredecessorsFirst(ops, l, j) {
        forall p: nat | p < |ops| && Precedes(ops, p, l[j]) ensures p in l[..j] {
          assert p in Ids(l);
          var i :| 0 <= i < |l| && l[i] == p;
          assert i < j;
        }
      }
    }
    if PartialLinearization(m, ops, l) && |l| == |ops| {
      forall i, j | 0 <= i <= j < |l| ensures !Precedes(ops, l[j], l[i]) {
        assert PredecessorsFirst(ops, l, i);
      }
    }
  }

  /** Every prefix of a partial linearization is one. */
  lemma {:induction false} PartialPrefix<S, I, O>(m: Model<S, I, O>, ops: seq<Operation<I, O>>, l: seq<nat>, k: nat)
    requires PartialLinearization(m, ops, l) && k <= |l|
    ensures PartialLinearization(m, ops, l[..k])
    decreases |l|
  {
    if k < |l| {
      var p := l[..|l| - 1];
      forall j | 0 <= j < |p| ensures PredecessorsFirst(ops, p, j) {
        assert PredecessorsFirst(ops, l, j);
        assert p[..j] == l[..j];
      }
      PartialPrefix(m, ops, p, k);
      assert p[..k] == l[..k];
    } else {
      assert l[..k] == l;
    }
  }

  /** What can be linearized does not return before it is called. */
  lemma PartialForward<S, I, O>(m: Model<S, I, O>, ops: seq<Operation<I, O>>, l: seq<nat>, j: nat)
    requires PartialLinearization(m, ops, l) && j < |l|
    ensures l[j] < |ops| && ops[l[j]].call <= ops[l[j]].ret
  {
    assert PredecessorsFirst(ops, l, j);
    assert l[j] !in l[..j];
  }

  /** `o` may be linearized next once exactly the operations in `b` are. */
  ghost predicate Enabled<I, O>(ops: seq<Operation<I, O>>, b: set<nat>, o: nat) {
    o < |ops| && o !in b && forall p: nat :: p < |ops| && p !in b ==> !Precedes(ops, p, o)
  }

  /** Extending a partial linearization: exactly by an enabled operation the model accepts. */
  lemma PartialExtend<S, I, O>(m: Model<S, I, O>, ops: seq<Operation<I, O>>, l: seq<nat>, o: nat)
    requires PartialLinearization(m, ops, l)
    ensures PartialLinearization(m, ops, l + [o]) <==>
              Enabled(ops, Ids(l), o) && Apply(m, ops, StateAfter(m, ops, l).value, o).Some?
    ensures StateAfter(m, ops, l + [o]) == Apply(m, ops, StateAfter(m, ops, l).value, o)
    ensures Ids(l + [o]) == Ids(l) + {o}
  {
    var e := l + [o];
    assert e[..|e| - 1] == l;
    if PartialLinearization(m, ops, e) {
      assert e[|l|] == o;
      assert PredecessorsFirst(ops, e, |l|);
      forall p: nat | p < |ops| && p !in Ids(l) ensures !Precedes(ops, p, o) {
        assert e[..|l|] == l;
      }
    }
    if Enabled(ops, Ids(l), o) && Apply(m, ops, StateAfter(m, ops, l).value, o).Some? {
      forall j | 0 <= j < |e| ensures PredecessorsFirst(ops, e, j) {
        if j < |l| {
          assert PredecessorsFirst(ops, l, j);
          assert e[..j] == l[..j];
        } else {
          assert e[..j] == l;
        }
      }
    }
  }
}
