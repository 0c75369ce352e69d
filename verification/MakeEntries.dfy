/** From timed operations to the entry list the search reads. */
module MakeEntries {
  import opened Wrappers
  import opened Sequences
  import opened Linearizability
  import opened Search
  import opened Entries

  /** The two entries of every operation, before sorting. */
  function RawEntries<I, O>(history: seq<Operation<I, O>>): (r: seq<Entry<I, O>>)
    ensures |r| == 2 * |history|
  {
    if history == [] then [] else
      var k := |history| - 1;
      var op := history[k];
      RawEntries(history[..k]) + [Call(k, op.input, op.call, op.clientId), Return(k, op.output, op.ret, op.clientId)]
  }

  lemma {:induction false} RawEntryAt<I, O>(history: seq<Operation<I, O>>, i: nat)
    requires i < |history|
    ensures var op, r := history[i], RawEntries(history);
            && r[2 * i] == Call(i, op.input, op.call, op.clientId)
            && r[2 * i + 1] == Return(i, op.output, op.ret, op.clientId)
  {
    var k := |history| - 1;
    if i < k {
      RawEntryAt(history[..k], i);
    }
  }

  lemma RawEntryOf<I, O>(history: seq<Operation<I, O>>, k: nat)
    requires k < 2 * |history|
    ensures var op, e := history[k / 2], RawEntries(history)[k];
            e == if k % 2 == 0 then Call(k / 2, op.input, op.call, op.clientId)
                 else Return(k / 2, op.output, op.ret, op.clientId)
  {
    RawEntryAt(history, k / 2);
  }

  ghost predicate Sorted<I, O>(entries: seq<Entry<I, O>>) {
    forall i, j :: 0 <= i < j < |entries| ==> entries[i].time <= entries[j].time
  }

  /** Puts `e` in front of the entries that are later than it. */
  method InsertByTime<I, O>(sorted: seq<Entry<I, O>>, e: Entry<I, O>) returns (r: seq<Entry<I, O>>)
    requires Sorted(sorted)
    ensures Sorted(r) && multiset(r) == multiset(sorted) + multiset{e}
  {
    var k := |sorted|;
    while k > 0 && sorted[k - 1].time > e.time
      invariant 0 <= k <= |sorted|
      invariant forall j :: k <= j < |sorted| ==> sorted[j].time > e.time
    {
      k := k - 1;
    }
    InsertionSorted(sorted, e, k);
    InsertedMembers(sorted, e, k);
    r := InsertAt(sorted, e, k);
  }

  lemma InsertionSorted<I, O>(sorted: seq<Entry<I, O>>, e: Entry<I, O>, k: nat)
    requires Sorted(sorted) && k <= |sorted|
    requires k > 0 ==> sorted[k - 1].time <= e.time
    requires k < |sorted| ==> e.time <= sorted[k].time
    ensures Sorted(InsertAt(sorted, e, k))
  {
    InsertedAt(sorted, e, k);
    hide InsertAt;
  }

  /** Some arrangement of the entries in which times do not decrease. Which one, among entries of
      equal time, is left open. */
  method SortByTime<I, O>(entries: seq<Entry<I, O>>) returns (r: seq<Entry<I, O>>)
    ensures Sorted(r) && multiset(r) == multiset(entries)
  {
    r := [];
    for i := 0 to |entries|
      invariant Sorted(r) && multiset(r) == multiset(entries[..i])
    {
      r := InsertByTime(r, entries[i]);
      assert entries[..i + 1] == entries[..i] + [entries[i]];
    }
    assert entries[..|entries|] == entries;
  }

  method MakeEntries<I, O>(history: seq<Operation<I, O>>) returns (entries: seq<Entry<I, O>>)
    ensures Sorted(entries) && multiset(entries) == multiset(RawEntries(history))
  {
    entries := [];
    for id := 0 to |history|
      invariant entries == RawEntries(history[..id])
    {
      var elem := history[id];
      assert history[..id + 1][..id] == history[..id];
      entries := entries + [Call(id, elem.input, elem.call, elem.clientId)];
      entries := entries + [Return(id, elem.output, elem.ret, elem.clientId)];
    }
    assert history[..|history|] == history;
    entries := SortByTime(entries);
  }

  // ---------------------------------------------------------------------------------
  // What the sorted list says about the history

  lemma {:induction false} NoDupCounts<T>(s: seq<T>)
    ensures NoDup(s) <==> forall x :: x in s ==> multiset(s)[x] == 1
  {
    if s != [] {
      var k := |s| - 1;
      NoDupCounts(s[..k]);
      assert s == s[..k] + [s[k]];
      if NoDup(s) {
        assert s[k] !in multiset(s[..k]);
      }
      if forall x :: x in s ==> multiset(s)[x] == 1 {
        assert multiset(s)[s[k]] == multiset(s[..k])[s[k]] + 1;
        assert s[k] !in s[..k];
        forall x | x in s[..k] ensures multiset(s[..k])[x] == 1 {
          assert x in s;
        }
      }
    }
  }

  lemma SameElements<T>(a: seq<T>, b: seq<T>)
    requires multiset(a) == multiset(b)
    ensures |a| == |b| && (forall x :: x in a <==> x in b) && (NoDup(a) <==> NoDup(b))
  {
    SameMembers(a, b);
    NoDupCounts(a);
    NoDupCounts(b);
  }

  lemma RawNoDup<I, O>(history: seq<Operation<I, O>>)
    ensures NoDup(RawEntries(history))
  {
    var r := RawEntries(history);
    forall i, j | 0 <= i < j < |r| ensures r[i] != r[j] {
      RawEntryOf(history, i);
      RawEntryOf(history, j);
    }
  }

  /** Entry `e` belongs to operation `e.id` of the history. */
  ghost predicate EntryOf<I, O>(history: seq<Operation<I, O>>, e: Entry<I, O>) {
    && 0 <= e.id < |history|
    && var op := history[e.id];
       match e
       case Call(_, input, time, clientId) => input == op.input && time == op.call && clientId == op.clientId
       case Return(_, output, time, clientId) => output == op.output && time == op.ret && clientId == op.clientId
  }

  /** The sorted list contains exactly one call and one return per operation. */
  lemma {:induction false} SortedEntries<I, O>(history: seq<Operation<I, O>>, entries: seq<Entry<I, O>>)
    requires multiset(entries) == multiset(RawEntries(history))
    ensures |entries| == 2 * |history| && NoDup(entries)
    ensures forall i :: 0 <= i < |entries| ==> EntryOf(history, entries[i])
    ensures forall id :: 0 <= id < |history| ==> Occurs(entries, id)
  {
    var raw := RawEntries(history);
    RawNoDup(history);
    SameElements(entries, raw);
    forall i | 0 <= i < |entries| ensures EntryOf(history, entries[i]) {
      assert entries[i] in raw;
      var k :| 0 <= k < |raw| && raw[k] == entries[i];
      RawEntryOf(history, k);
    }
    forall id: nat | id < |history| ensures Occurs(entries, id) {
      RawEntryAt(history, id);
      var c, r := raw[2 * id], raw[2 * id + 1];
      assert c in entries && r in entries;
      var i: nat :| i < |entries| && entries[i] == c;
      var j: nat :| j < |entries| && entries[j] == r;
      assert IsCall(entries, id, i) && IsReturn(entries, id, j);
    }
  }

  /** Any arrangement of the entries of a history is well formed, whatever the times are. */
  lemma {:induction false} EntriesWellFormed<I, O>(history: seq<Operation<I, O>>, entries: seq<Entry<I, O>>)
    requires multiset(entries) == multiset(RawEntries(history))
    ensures WellFormed(entries) && |entries| == 2 * |history|
  {
    SortedEntries(history, entries);
    forall i, j | 0 <= i < j < |entries| && entries[i].id == entries[j].id
      ensures entries[i].Call? != entries[j].Call?
    {
      assert EntryOf(history, entries[i]) && EntryOf(history, entries[j]);
    }
  }

  /** `b` has the operations of `a`, possibly at other times. */
  ghost predicate SameOperations<I, O>(a: seq<Operation<I, O>>, b: seq<Operation<I, O>>) {
    && |a| == |b|
    && forall i :: 0 <= i < |a| ==> a[i].input == b[i].input && a[i].output == b[i].output
  }

  lemma {:induction false} SameStateAfter<S, I, O>(m: Model<S, I, O>, a: seq<Operation<I, O>>, b: seq<Operation<I, O>>, l: seq<nat>)
    requires SameOperations(a, b)
    ensures StateAfter(m, a, l) == StateAfter(m, b, l)
  {
    if l != [] { SameStateAfter(m, a, b, l[..|l| - 1]); }
  }

  /** Fewer real-time constraints can only make a history more linearizable. */
  lemma RelaxOrder<S, I, O>(m: Model<S, I, O>, a: seq<Operation<I, O>>, b: seq<Operation<I, O>>)
    requires SameOperations(a, b)
    requires forall i: nat, j: nat :: i < |a| && j < |a| && Precedes(b, i, j) ==> Precedes(a, i, j)
    ensures Linearizable(m, a) ==> Linearizable(m, b)
  {
    if Linearizable(m, a) {
      var l :| Linearization(m, a, l);
      SameStateAfter(m, a, b, l);
      assert Linearization(m, b, l);
    }
  }

  /** The history in which a return that coincides with a call counts as coming first. */
  ghost function TiesOrdered<I, O>(history: seq<Operation<I, O>>): (r: seq<Operation<I, O>>)
    ensures SameOperations(history, r)
    ensures forall i: nat, j: nat :: i < |history| && j < |history| ==> (Precedes(r, i, j) <==> history[i].ret <= history[j].call)
  {
    seq(|history|, i requires 0 <= i < |history| => history[i].(call := 2 * history[i].call + 1, ret := 2 * history[i].ret))
  }

  ghost predicate NoTies<I, O>(history: seq<Operation<I, O>>) {
    forall i, j :: 0 <= i < |history| && 0 <= j < |history| ==> history[i].ret != history[j].call
  }

  lemma OperationsOfEntries<I, O>(history: seq<Operation<I, O>>, entries: seq<Entry<I, O>>)
    requires Sorted(entries) && multiset(entries) == multiset(RawEntries(history))
    ensures WellFormed(entries) && SameOperations(history, OpsOf(entries))
    ensures forall i: nat, j: nat :: i < |history| && j < |history| && Precedes(history, i, j) ==> Precedes(OpsOf(entries), i, j)
    ensures forall i: nat, j: nat :: i < |history| && j < |history| && Precedes(OpsOf(entries), i, j) ==> history[i].ret <= history[j].call
  {
    EntriesWellFormed(history, entries);
    SortedEntries(history, entries);
    var ops := OpsOf(entries);
    forall i: nat | i < |history|
      ensures ops[i].input == history[i].input && ops[i].output == history[i].output
      ensures 0 <= ops[i].call < |entries| && entries[ops[i].call].time == history[i].call
      ensures 0 <= ops[i].ret < |entries| && entries[ops[i].ret].time == history[i].ret
    {
      assert EntryOf(history, entries[CallAt(entries, i)]) && EntryOf(history, entries[ReturnAt(entries, i)]);
    }
    OpsTimeline(entries);
  }

  /** What sorting does to linearizability, however ties fall: the sorted list is linearizable only if the history
      is, and is so whenever the history is even with ties read as ordered. Without ties the two coincide. */
  lemma EntriesLinearizable<S, I, O>(m: Model<S, I, O>, history: seq<Operation<I, O>>, entries: seq<Entry<I, O>>)
    requires Sorted(entries) && multiset(entries) == multiset(RawEntries(history))
    ensures WellFormed(entries)
    ensures Linearizable(m, OpsOf(entries)) ==> Linearizable(m, history)
    ensures Linearizable(m, TiesOrdered(history)) ==> Linearizable(m, OpsOf(entries))
    ensures NoTies(history) ==> (Linearizable(m, OpsOf(entries)) <==> Linearizable(m, history))
  {
    OperationsOfEntries(history, entries);
    var ops := OpsOf(entries);
    RelaxOrder(m, ops, history);
    RelaxOrder(m, TiesOrdered(history), ops);
    if NoTies(history) {
      RelaxOrder(m, history, ops);
    }
  }
}
