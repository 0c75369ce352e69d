/** Exactly when the order of simultaneous entries can change the verdict: the sort leaves it
    open, and this is what each way of filling it in decides. */
module Ties {
  import opened Wrappers
  import opened Sequences
  import opened Linearizability
  import opened Entries
  import opened MakeEntries
  import opened Locality
  import opened KvModel
  import opened CheckOperations

  // ---------------------------------------------------------------------------------
  // The arrangement that puts returns first

  ghost predicate Before<I, O>(a: Entry<I, O>, b: Entry<I, O>) {
    a.time < b.time || (a.time == b.time && (a.Return? || b.Call?))
  }

  ghost predicate ReturnsFirst<I, O>(entries: seq<Entry<I, O>>) {
    forall i, j :: 0 <= i < j < |entries| ==> Before(entries[i], entries[j])
  }

  lemma {:induction false} Arrange<I, O>(raw: seq<Entry<I, O>>) returns (entries: seq<Entry<I, O>>)
    ensures ReturnsFirst(entries) && multiset(entries) == multiset(raw)
  {
    if raw == [] {
      entries := [];
    } else {
      var n := |raw| - 1;
      var rest := Arrange(raw[..n]);
      var k := Place(rest, raw[n], |rest|);
      entries := InsertAt(rest, raw[n], k);
      InsertedAt(rest, raw[n], k);
      InsertedMembers(rest, raw[n], k);
      assert raw == raw[..n] + [raw[n]];
      hide InsertAt;
    }
  }

  lemma {:induction false} Place<I, O>(entries: seq<Entry<I, O>>, e: Entry<I, O>, k: nat) returns (p: nat)
    requires ReturnsFirst(entries) && k <= |entries| && forall j :: k <= j < |entries| ==> Before(e, entries[j])
    ensures p <= |entries|
    ensures (forall j :: 0 <= j < p ==> Before(entries[j], e)) && (forall j :: p <= j < |entries| ==> Before(e, entries[j]))
  {
    if k == 0 || Before(entries[k - 1], e) {
      p := k;
    } else {
      p := Place(entries, e, k - 1);
    }
  }

  lemma {:induction false} ReturnPrecedes<I, O>(history: seq<Operation<I, O>>, entries: seq<Entry<I, O>>, i: nat, j: nat)
    requires multiset(entries) == multiset(RawEntries(history)) && ReturnsFirst(entries)
    requires i < |history| && j < |history| && history[i].ret <= history[j].call
    ensures WellFormed(entries) && |entries| == 2 * |history| && Precedes(OpsOf(entries), i, j)
  {
    EntriesWellFormed(history, entries);
    SortedEntries(history, entries);
    var r, c := ReturnAt(entries, i), CallAt(entries, j);
    assert EntryOf(history, entries[r]) && EntryOf(history, entries[c]);
    assert !Before(entries[c], entries[r]);
  }

  /** With returns first, a return that coincides with a call precedes it. */
  lemma {:induction false} ReturnsFirstDecides<S, I, O>(m: Model<S, I, O>, history: seq<Operation<I, O>>, entries: seq<Entry<I, O>>)
    requires multiset(entries) == multiset(RawEntries(history)) && ReturnsFirst(entries)
    ensures Sorted(entries) && WellFormed(entries)
    ensures Linearizable(m, OpsOf(entries)) <==> Linearizable(m, TiesOrdered(history))
  {
    assert Sorted(entries);
    OperationsOfEntries(history, entries);
    var ops := OpsOf(entries);
    hide WellFormed, Sorted, RawEntries, OpsOf;
    forall i: nat, j: nat | i < |history| && j < |history| && history[i].ret <= history[j].call
      ensures Precedes(ops, i, j)
    {
      ReturnPrecedes(history, entries, i, j);
    }
    hide ReturnsFirst;
    RelaxOrder(m, ops, TiesOrdered(history));
    RelaxOrder(m, TiesOrdered(history), ops);
  }

  // ---------------------------------------------------------------------------------
  // For one history

  lemma {:induction false} SortedKeys(keys: set<string>) returns (sorted: seq<string>)
    ensures SortedStrings(sorted) && NoDup(sorted) && forall k :: k in sorted <==> k in keys
    decreases keys
  {
    if keys == {} {
      sorted := [];
    } else {
      var k :| k in keys;
      var rest := SortedKeys(keys - {k});
      var i := |rest|;
      while i > 0 && !AtMost(rest[i - 1], k)
        invariant 0 <= i <= |rest|
        invariant forall j :: i <= j < |rest| ==> AtMost(k, rest[j])
      {
        i := i - 1;
        AtMostTotal(rest[i], k);
      }
      InsertKeyAt(rest, k, i);
      InsertedMembers(rest, k, i);
      sorted := InsertAt(rest, k, i);
    }
  }

  ghost predicate Arranged(part: seq<KvOperation>, list: seq<KvEntry>) {
    multiset(list) == multiset(RawEntries(part)) && ReturnsFirst(list)
  }

  lemma ArrangeOne(part: seq<KvOperation>) returns (list: seq<KvEntry>)
    ensures Arranged(part, list)
  {
    list := Arrange(RawEntries(part));
  }

  lemma {:induction false} ArrangeAll(parts: seq<seq<KvOperation>>) returns (lists: seq<seq<KvEntry>>)
    ensures |lists| == |parts|
    ensures forall i :: 0 <= i < |parts| ==> Arranged(parts[i], lists[i])
  {
    hide Arranged;
    if parts == [] {
      lists := [];
    } else {
      var n := |parts| - 1;
      var rest := ArrangeAll(parts[..n]);
      var entries := ArrangeOne(parts[n]);
      lists := rest + [entries];
    }
  }

  /** Some preparation decides whether the history is linearizable with ties read as ordered. */
  lemma TiesDecide(history: seq<KvOperation>) returns (lists: seq<seq<KvEntry>>)
    ensures Prepared(history, lists) && WellFormedLists(lists)
    ensures AllLinearizable(lists) <==> Linearizable(STORE, TiesOrdered(history))
  {
    var keys := SortedKeys(set op | op in history :: op.input.key);
    var parts := seq(|keys|, i requires 0 <= i < |keys| => Group(history, KeyOf, keys[i]));
    forall k ensures k in keys <==> Mentions(history, k) {
      if Mentions(history, k) {
        var x :| 0 <= x < |history| && history[x].input.key == k;
        assert history[x] in history;
      }
    }
    assert IsPartition(history, keys, parts);
    lists := ArrangeAll(parts);
    var ties := seq(|parts|, i requires 0 <= i < |parts| => TiesOrdered(parts[i]));
    TiesPartition(history, keys, parts);
    PartitionContract(TiesOrdered(history), keys, ties);
    hide IsPartition, Linearizable, ReturnsFirst, WellFormed, Sorted, TiesOrdered, Mentions;
    forall i | 0 <= i < |lists|
      ensures EntriesFor(parts[i], lists[i]) && WellFormed(lists[i])
      ensures Linearizable(REGISTER, OpsOf(lists[i])) <==> Linearizable(REGISTER, ties[i])
    {
      ReturnsFirstDecides(REGISTER, parts[i], lists[i]);
    }
    assert PreparedFrom(history, keys, parts, lists);
  }

  /** However simultaneous entries are ordered, the search decides the linearizability of the history. */
  ghost predicate AlwaysRight(history: seq<KvOperation>) {
    forall lists :: Prepared(history, lists) ==>
      WellFormedLists(lists) && (AllLinearizable(lists) <==> Linearizable(STORE, history))
  }

  /** That is so if and only if reading ties as ordered does not take linearizability away. */
  lemma RightExactly(history: seq<KvOperation>)
    ensures AlwaysRight(history) <==> (Linearizable(STORE, history) ==> Linearizable(STORE, TiesOrdered(history)))
  {
    if AlwaysRight(history) {
      var lists := TiesDecide(history);
    }
    if Linearizable(STORE, history) ==> Linearizable(STORE, TiesOrdered(history)) {
      hide Linearizable;
      forall lists | Prepared(history, lists)
        ensures WellFormedLists(lists) && (AllLinearizable(lists) <==> Linearizable(STORE, history))
      {
        var keys, parts :| PreparedFrom(history, keys, parts, lists);
        hide PreparedFrom, AllLinearizable;
        PreparedWellFormed(history, keys, parts, lists);
        ListsDecide(history, keys, parts, lists);
      }
    }
  }

  // ---------------------------------------------------------------------------------
  // For given times

  ghost predicate SameTimes(a: seq<KvOperation>, b: seq<KvOperation>) {
    |a| == |b| && forall x :: 0 <= x < |a| ==> a[x].call == b[x].call && a[x].ret == b[x].ret
  }

  /** No operation returns before it is called. */
  ghost predicate Proper(history: seq<KvOperation>) {
    forall x :: 0 <= x < |history| ==> history[x].call <= history[x].ret
  }

  function OwnKey(x: nat): string { seq(x + 1, _ => 'y') }

  /** Operation `i` writes a key, `j` reads it and finds nothing there, and all others have keys of their own. */
  function Witness(h: seq<KvOperation>, i: nat, j: nat): seq<KvOperation> {
    seq(|h|, x requires 0 <= x < |h| =>
      Operation(h[x].clientId,
                if x == i then KvInput(1, "x", "a") else if x == j then KvInput(0, "x", "") else KvInput(1, OwnKey(x), ""),
                h[x].call, KvOutput(""), h[x].ret))
  }

  /** A linearization of the operations on the key `k` of the witness. */
  function WitnessOrder(i: nat, j: nat, k: string): seq<nat> {
    if k == "x" then (if i == j then [i] else [j, i]) else if k == "" then [] else [|k| - 1]
  }

  lemma OneStep<S, I, O>(m: Model<S, I, O>, ops: seq<Operation<I, O>>, x: nat)
    ensures StateAfter(m, ops, [x]) == Apply(m, ops, m.init, x)
  {
    assert [x][..0] == [];
  }

  lemma WitnessState(h: seq<KvOperation>, i: nat, j: nat, k: string)
    requires i < |h| && j < |h| && (k != "x" ==> 0 < |k| <= |h| && |k| - 1 != i && |k| - 1 != j)
    ensures StateAfter(REGISTER, Witness(h, i, j), WitnessOrder(i, j, k)).Some?
  {
    var ops, l := Witness(h, i, j), WitnessOrder(i, j, k);
    if |l| == 2 { TwoSteps(REGISTER, ops, j, i); } else { OneStep(REGISTER, ops, l[0]); }
    hide StateAfter, OwnKey;
  }

  lemma WitnessKeys(h: seq<KvOperation>, i: nat, j: nat, k: string)
    requires i < |h| && j < |h| && Proper(h) && h[i].ret == h[j].call
    requires exists x: nat :: HasKey(Witness(h, i, j), KeyOf, x, k)
    ensures KeyLinearization(REGISTER, KeyOf, Witness(h, i, j), k, WitnessOrder(i, j, k))
  {
    var ops, l := Witness(h, i, j), WitnessOrder(i, j, k);
    var z: nat :| HasKey(ops, KeyOf, z, k);
    assert z != i && z != j ==> k == OwnKey(z) && k[0] == 'y' && |k| == z + 1;
    assert forall x: nat :: x < |h| && x != i && x != j ==> |ops[x].input.key| == x + 1 && ops[x].input.key[0] == 'y';
    WitnessState(h, i, j, k);
    hide StateAfter, OwnKey;
    forall x: nat ensures x in l <==> HasKey(ops, KeyOf, x, k) {
      if HasKey(ops, KeyOf, x, k) && k != "x" { assert |k| == x + 1; }
    }
  }

  lemma WitnessLinearizable(h: seq<KvOperation>, i: nat, j: nat)
    requires i < |h| && j < |h| && Proper(h) && h[i].ret == h[j].call
    ensures Linearizable(STORE, Witness(h, i, j))
  {
    var ops := Witness(h, i, j);
    var lins := WitnessOrders(h, i, j);
    hide KeyLinearizations, Witness, REGISTER, Linearization, Proper;
    assert OnKey(ops, KeyOf, [], "") == [];
    assert Merging(REGISTER, KeyOf, ops, lins, []);
    var full := Merge(REGISTER, KeyOf, ops, lins, []);
    StoreLinearizable(ops);
  }

  lemma WitnessOrders(h: seq<KvOperation>, i: nat, j: nat) returns (lins: map<string, seq<nat>>)
    requires i < |h| && j < |h| && Proper(h) && h[i].ret == h[j].call
    ensures KeyLinearizations(REGISTER, KeyOf, Witness(h, i, j), lins)
  {
    var ops := Witness(h, i, j);
    hide Witness, WitnessOrder, KeyLinearization, Proper;
    var keys := set op | op in ops :: op.input.key;
    lins := map k | k in keys :: WitnessOrder(i, j, k);
    forall k | k in lins ensures KeyLinearization(REGISTER, KeyOf, ops, k, lins[k]) {
      var op :| op in ops && op.input.key == k;
      var x: nat :| x < |ops| && ops[x] == op;
      assert HasKey(ops, KeyOf, x, k);
      WitnessKeys(h, i, j, k);
    }
    forall x | 0 <= x < |ops| ensures KeyOf(ops[x].input) in lins { assert ops[x] in ops; }
  }

  /** Once `i` has written its key, nobody but `j` touches it. */
  lemma {:induction false} Written(h: seq<KvOperation>, ops: seq<KvOperation>, i: nat, j: nat, p: seq<nat>)
    requires i < |h| && SameOperations(Witness(h, i, j), ops)
    requires StateAfter(STORE, ops, p).Some? && i in p && (i == j || j !in p)
    ensures ValueOf(StateAfter(STORE, ops, p).value, "x") == "a"
  {
    var n := |p| - 1;
    var y := p[n];
    assert p == p[..n] + [y];
    if y != i {
      Written(h, ops, i, j, p[..n]);
      assert ops[y].input.key == OwnKey(y) && OwnKey(y)[0] == 'y';
    }
    assert STORE.step == StoreStep;
  }

  lemma WitnessRefuted(h: seq<KvOperation>, i: nat, j: nat)
    requires i < |h| && j < |h| && h[i].ret == h[j].call
    ensures !Linearizable(STORE, TiesOrdered(Witness(h, i, j)))
  {
    var history := Witness(h, i, j);
    var ops := TiesOrdered(history);
    assert Precedes(ops, i, j);
    forall l ensures !Linearization(STORE, ops, l) {
      if Linearization(STORE, ops, l) {
        CountIds(l, |ops|);
        assert i in Ids(l) && j in Ids(l);
        var a: nat :| a < |l| && l[a] == i;
        var b: nat :| b < |l| && l[b] == j;
        assert a < b;
        Unreadable(h, ops, i, j, l, a, b);
      }
    }
  }

  lemma Unreadable(h: seq<KvOperation>, ops: seq<KvOperation>, i: nat, j: nat, l: seq<nat>, a: nat, b: nat)
    requires i < |h| && j < |h| && i != j && SameOperations(Witness(h, i, j), ops)
    requires a < b < |l| && l[a] == i && l[b] == j && NoDup(l)
    ensures StateAfter(STORE, ops, l).None?
  {
    var s := StateAfter(STORE, ops, l[..b]);
    assert l[..b + 1][..b] == l[..b] && l[..b][a] == i;
    if s.Some? {
      Written(h, ops, i, j, l[..b]);
      ReadRefused(s.value);
      assert ops[j].input == KvInput(0, "x", "") && ops[j].output == KvOutput("");
    }
    RefusedAfter(STORE, ops, l, b + 1);
  }

  lemma ReadRefused(st: map<string, string>)
    requires ValueOf(st, "x") == "a"
    ensures !STORE.step(st, KvInput(0, "x", ""), KvOutput("")).0
  {
    assert STORE.step == StoreStep;
  }

  /** A run that is refused half way stays refused. */
  lemma {:induction false} RefusedAfter<S, I, O>(m: Model<S, I, O>, ops: seq<Operation<I, O>>, l: seq<nat>, k: nat)
    requires k <= |l| && StateAfter(m, ops, l[..k]).None?
    ensures StateAfter(m, ops, l).None?
  {
    if k < |l| {
      assert l[..|l| - 1][..k] == l[..k];
      RefusedAfter(m, ops, l[..|l| - 1], k);
    } else {
      assert l[..k] == l;
    }
  }

  /** The times of a history make every verdict on them right if and only if no return coincides with a call, or some
      operation returns before it is called (and nothing with these times is linearizable). */
  lemma RightTimesExactly(h: seq<KvOperation>)
    ensures (forall history :: SameTimes(h, history) ==> AlwaysRight(history)) <==> NoTies(h) || !Proper(h)
  {
    if NoTies(h) || !Proper(h) {
      forall history | SameTimes(h, history) ensures AlwaysRight(history) {
        RightExactly(history);
        if !Proper(h) { Backward(history); } else { NoTiesSame(STORE, history); }
      }
    } else {
      var i: nat, j: nat :| i < |h| && j < |h| && h[i].ret == h[j].call;
      var history := Witness(h, i, j);
      WitnessLinearizable(h, i, j);
      WitnessRefuted(h, i, j);
      RightExactly(history);
      assert SameTimes(h, history);
    }
  }

  lemma Backward(history: seq<KvOperation>)
    requires !Proper(history)
    ensures !Linearizable(STORE, history)
  {
    var x: nat :| x < |history| && history[x].ret < history[x].call;
    forall l: seq<nat> ensures !Linearization(STORE, history, l) {
      if |l| == |history| && NoDup(l) && InRange(l, |history|) {
        CountIds(l, |history|);
        assert x in Ids(l);
        var a: nat :| a < |l| && l[a] == x;
        assert Precedes(history, l[a], l[a]);
      }
    }
  }
}
