/** What the key/value model means, told by the operations alone: a key holds what was written
    to it from its last put on, and a read is accepted exactly if it returns that. */
module KvSemantics {
  import opened Wrappers
  import opened Sequences
  import opened Linearizability
  import opened KvModel

  /** Operation `x` writes the key `k`, or any key if `k` is None. */
  predicate IsWrite(ops: seq<KvOperation>, x: nat, k: Option<string>) {
    x < |ops| && ops[x].input.op != 0 && (k.None? || ops[x].input.key == k.value)
  }

  /** The writes on `k` among the operations of `l`, in the order of `l`. */
  function Writes(ops: seq<KvOperation>, l: seq<nat>, k: Option<string>): (w: seq<nat>)
    ensures forall i :: 0 <= i < |w| ==> IsWrite(ops, w[i], k)
  {
    if l == [] then [] else (if IsWrite(ops, l[0], k) then [l[0]] else []) + Writes(ops, l[1..], k)
  }

  /** Where the last put is, or the start if there is none. */
  function LastPut(ops: seq<KvOperation>, w: seq<nat>): (p: nat)
    requires InRange(w, |ops|)
    ensures p <= |w| && (w != [] ==> p < |w|)
    ensures p > 0 ==> ops[w[p]].input.op == 1
    ensures forall i :: p < i < |w| ==> ops[w[i]].input.op != 1
  {
    if w == [] then 0 else
      var n := |w| - 1;
      if ops[w[n]].input.op == 1 then n else LastPut(ops, w[..n])
  }

  function Concat(ss: seq<string>): string { if ss == [] then "" else ss[0] + Concat(ss[1..]) }

  function Values(ops: seq<KvOperation>, w: seq<nat>): seq<string>
    requires InRange(w, |ops|)
  {
    seq(|w|, i requires 0 <= i < |w| => ops[w[i]].input.value)
  }

  /** What the writes `w` leave, one after the other. */
  function TextOf(ops: seq<KvOperation>, w: seq<nat>): string
    requires InRange(w, |ops|)
  {
    Concat(Values(ops, w[LastPut(ops, w)..]))
  }

  /** What the operations of `l` leave at `k`. */
  function Text(ops: seq<KvOperation>, l: seq<nat>, k: Option<string>): string { TextOf(ops, Writes(ops, l, k)) }

  lemma {:induction false} WritesSnoc(ops: seq<KvOperation>, l: seq<nat>, x: nat, k: Option<string>)
    ensures Writes(ops, l + [x], k) == Writes(ops, l, k) + if IsWrite(ops, x, k) then [x] else []
  {
    if l != [] {
      WritesSnoc(ops, l[1..], x, k);
      assert (l + [x])[1..] == l[1..] + [x];
    }
  }

  lemma {:induction false} ConcatSnoc(ss: seq<string>, s: string)
    ensures Concat(ss + [s]) == Concat(ss) + s
  {
    if ss != [] {
      ConcatSnoc(ss[1..], s);
      assert (ss + [s])[1..] == ss[1..] + [s];
    } else {
      assert ([] + [s])[1..] == [];
    }
  }

  lemma TextOfPut(ops: seq<KvOperation>, w: seq<nat>, x: nat)
    requires InRange(w, |ops|) && x < |ops| && ops[x].input.op == 1 && InRange(w + [x], |ops|)
    ensures TextOf(ops, w + [x]) == ops[x].input.value
  {
    var e, v := w + [x], ops[x].input.value;
    assert LastPut(ops, e) == |w|;
    assert Values(ops, e[|w|..]) == [] + [v];
    hide LastPut, Values;
    ConcatSnoc([], v);
  }

  lemma TextOfAppend(ops: seq<KvOperation>, w: seq<nat>, x: nat)
    requires InRange(w, |ops|) && x < |ops| && ops[x].input.op != 1 && InRange(w + [x], |ops|)
    ensures TextOf(ops, w + [x]) == TextOf(ops, w) + ops[x].input.value
  {
    var e, v, p := w + [x], ops[x].input.value, LastPut(ops, w);
    assert e[..|w|] == w;
    assert LastPut(ops, e) == p;
    hide LastPut;
    assert e[p..] == w[p..] + [x];
    assert Values(ops, e[p..]) == Values(ops, w[p..]) + [v];
    hide Values;
    ConcatSnoc(Values(ops, w[p..]), v);
  }

  /** A put replaces the text, an append extends it at the end. */
  lemma TextSnoc(ops: seq<KvOperation>, l: seq<nat>, x: nat, k: Option<string>)
    requires x < |ops|
    ensures Text(ops, l + [x], k) ==
            if !IsWrite(ops, x, k) then Text(ops, l, k)
            else (if ops[x].input.op == 1 then "" else Text(ops, l, k)) + ops[x].input.value
  {
    WritesSnoc(ops, l, x, k);
    var w := Writes(ops, l, k);
    hide Writes, TextOf;
    if !IsWrite(ops, x, k) {
      assert w + [] == w;
    } else if ops[x].input.op == 1 {
      TextOfPut(ops, w, x);
    } else {
      TextOfAppend(ops, w, x);
    }
  }

  /** The store holds at every key what was written to it from its last put on. */
  lemma {:induction false} StoreText(ops: seq<KvOperation>, l: seq<nat>, k: string)
    requires StateAfter(STORE, ops, l).Some?
    ensures ValueOf(StateAfter(STORE, ops, l).value, k) == Text(ops, l, Some(k))
  {
    if l != [] {
      var p, x := l[..|l| - 1], l[|l| - 1];
      assert l == p + [x];
      StoreText(ops, p, k);
      TextSnoc(ops, p, x, Some(k));
      hide Text;
      assert STORE.step == StoreStep;
    }
  }

  /** A register, which does not look at keys, holds what was written at all from the last put on. */
  lemma {:induction false} RegisterText(ops: seq<KvOperation>, l: seq<nat>)
    requires StateAfter(REGISTER, ops, l).Some?
    ensures StateAfter(REGISTER, ops, l).value == Text(ops, l, None)
  {
    if l != [] {
      var p, x := l[..|l| - 1], l[|l| - 1];
      assert l == p + [x];
      RegisterText(ops, p);
      TextSnoc(ops, p, x, None);
      hide Text;
      assert REGISTER.step == Step;
    }
  }

  /** The key that an operation is about; to a register all keys are one. */
  function KeyRead(inp: KvInput, register: bool): Option<string> { if register then None else Some(inp.key) }

  /** Every read in `l` returns what the operations before it left at its key. */
  ghost predicate ReadsText(ops: seq<KvOperation>, l: seq<nat>, register: bool) {
    && InRange(l, |ops|)
    && forall j :: 0 <= j < |l| && ops[l[j]].input.op == 0 ==>
         ops[l[j]].output.value == Text(ops, l[..j], KeyRead(ops[l[j]].input, register))
  }

  lemma ReadsSnoc(ops: seq<KvOperation>, l: seq<nat>, x: nat, register: bool)
    ensures ReadsText(ops, l + [x], register) <==>
            && ReadsText(ops, l, register) && x < |ops|
            && (ops[x].input.op == 0 ==> ops[x].output.value == Text(ops, l, KeyRead(ops[x].input, register)))
  {
    var e := l + [x];
    hide Text;
    assert e[|l|] == x && e[..|l|] == l;
    assert forall j :: 0 <= j < |l| ==> e[j] == l[j] && e[..j] == l[..j];
  }

  /** The store accepts a sequence of operations if and only if every read in it returns the text of its key. */
  lemma {:induction false} StoreAccepts(ops: seq<KvOperation>, l: seq<nat>)
    ensures StateAfter(STORE, ops, l).Some? <==> ReadsText(ops, l, false)
  {
    if l != [] {
      var p, x := l[..|l| - 1], l[|l| - 1];
      assert l == p + [x];
      StoreAccepts(ops, p);
      ReadsSnoc(ops, p, x, false);
      hide Text, ReadsText;
      if StateAfter(STORE, ops, p).Some? && x < |ops| {
        StoreText(ops, p, ops[x].input.key);
        assert STORE.step == StoreStep;
      }
    }
  }

  lemma {:induction false} RegisterAccepts(ops: seq<KvOperation>, l: seq<nat>)
    ensures StateAfter(REGISTER, ops, l).Some? <==> ReadsText(ops, l, true)
  {
    if l != [] {
      var p, x := l[..|l| - 1], l[|l| - 1];
      assert l == p + [x];
      RegisterAccepts(ops, p);
      ReadsSnoc(ops, p, x, true);
      hide Text, ReadsText;
      if StateAfter(REGISTER, ops, p).Some? && x < |ops| {
        RegisterText(ops, p);
        assert REGISTER.step == Step;
      }
    }
  }

  /** So a history is linearizable as a store if and only if its operations have an order that respects real time and in
      which every read returns the text of its key. */
  lemma StoreMeaning(ops: seq<KvOperation>)
    ensures Linearizable(STORE, ops) <==> exists l :: RealTimeOrder(ops, l) && ReadsText(ops, l, false)
  {
    hide ReadsText, StateAfter;
    forall l: seq<nat> ensures Linearization(STORE, ops, l) <==> RealTimeOrder(ops, l) && ReadsText(ops, l, false) {
      StoreAccepts(ops, l);
    }
  }

  /** Every operation once, none after one that was called after its return. */
  ghost predicate RealTimeOrder(ops: seq<KvOperation>, l: seq<nat>) {
    && |l| == |ops| && NoDup(l) && InRange(l, |ops|)
    && forall i, j :: 0 <= i <= j < |l| ==> !(ops[l[j]].ret < ops[l[i]].call)
  }

  /** put(x, "a"), append(x, "b") and get(x), one after the other. */
  function PutAppendGet(value: string): seq<KvOperation> {
    [Operation(0, KvInput(1, "x", "a"), 0, KvOutput(""), 1),
     Operation(0, KvInput(2, "x", "b"), 2, KvOutput(""), 3),
     Operation(0, KvInput(0, "x", ""), 4, KvOutput(value), 5)]
  }

  /** The get has to return "ab". */
  lemma AppendsAtTheEnd(value: string)
    ensures Linearizable(STORE, PutAppendGet(value)) <==> value == "ab"
  {
    var ops := PutAppendGet(value);
    ExampleText(value);
    StoreAccepts(ops, [0, 1, 2]);
    hide ReadsText, StateAfter;
    assert Linearization(STORE, ops, [0, 1, 2]) <==> value == "ab";
    forall l: seq<nat> | |l| == 3 && NoDup(l) && InRange(l, 3) && l != [0, 1, 2] ensures !Linearization(STORE, ops, l) {
      OutOfOrder(l);
    }
  }

  lemma ExampleText(value: string)
    ensures ReadsText(PutAppendGet(value), [0, 1, 2], false) <==> value == "ab"
  {
    var ops, none: seq<nat> := PutAppendGet(value), [];
    assert ReadsText(ops, none, false);
    hide Text, ReadsText, PutAppendGet;
    TwoWrites(value);
    assert none + [0] == [0] && [0] + [1] == [0, 1] && [0, 1] + [2] == [0, 1, 2];
    ExampleOps(value);
    ReadsSnoc(ops, none, 0, false);
    ReadsSnoc(ops, [0], 1, false);
    ReadsSnoc(ops, [0, 1], 2, false);
  }

  lemma TwoWrites(value: string)
    ensures Text(PutAppendGet(value), [0, 1], Some("x")) == "ab"
  {
    var ops, none: seq<nat> := PutAppendGet(value), [];
    hide Text;
    assert none + [0] == [0] && [0] + [1] == [0, 1];
    TextSnoc(ops, none, 0, Some("x"));
    TextSnoc(ops, [0], 1, Some("x"));
  }

  lemma ExampleOps(value: string)
    ensures var ops := PutAppendGet(value);
            && |ops| == 3 && ops[0].input.op != 0 && ops[1].input.op != 0
            && ops[2].input == KvInput(0, "x", "") && ops[2].output == KvOutput(value)
  {
  }

  lemma OutOfOrder(m: seq<nat>)
    requires |m| == 3 && NoDup(m) && InRange(m, 3) && m != [0, 1, 2]
    ensures exists i, j :: 0 <= i < j < 3 && m[j] < m[i]
  {
    if m[0] == 0 {
      assert m[2] < m[1];
    } else if m[1] == 0 {
      assert m[1] < m[0];
    } else {
      assert m[2] < m[0];
    }
  }
}
