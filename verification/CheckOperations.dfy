/** From a key/value history to a verdict: partition, entries, parallel search. */
module CheckOperations {
  import opened Wrappers
  import opened Sequences
  import opened Linearizability
  import opened Search
  import opened Entries
  import opened MakeEntries
  import Events
  import opened Locality
  import opened KvModel
  import opened CheckParallel

  type KvEntry = Entry<KvInput, KvOutput>

  /** The entry lists handed to the parallel driver. */
  ghost predicate Prepared(history: seq<KvOperation>, lists: seq<seq<KvEntry>>) {
    exists keys, parts :: PreparedFrom(history, keys, parts, lists)
  }

  ghost predicate PreparedFrom(history: seq<KvOperation>, keys: seq<string>, parts: seq<seq<KvOperation>>, lists: seq<seq<KvEntry>>) {
    && IsPartition(history, keys, parts) && |lists| == |parts|
    && forall i :: 0 <= i < |parts| ==> EntriesFor(parts[i], lists[i])
  }

  ghost predicate EntriesFor(part: seq<KvOperation>, list: seq<KvEntry>) {
    Sorted(list) && multiset(list) == multiset(RawEntries(part))
  }

  method Prepare(history: seq<KvOperation>) returns (lists: seq<seq<KvEntry>>)
    ensures Prepared(history, lists)
  {
    var parts := Partition(history);
    ghost var keys :| IsPartition(history, keys, parts);
    lists := [];
    for i := 0 to |parts|
      invariant |lists| == i && forall j :: 0 <= j < i ==> EntriesFor(parts[j], lists[j])
    {
      var entries := MakeEntries.MakeEntries(parts[i]);
      lists := lists + [entries];
    }
    assert PreparedFrom(history, keys, parts, lists);
  }

  // ---------------------------------------------------------------------------------

  lemma {:induction false} GroupTies<K, I, O>(ops: seq<Operation<I, O>>, key: I -> K, k: K)
    ensures Group(TiesOrdered(ops), key, k) == TiesOrdered(Group(ops, key, k))
  {
    if ops != [] {
      var n := |ops| - 1;
      GroupTies(ops[..n], key, k);
      assert TiesOrdered(ops)[..n] == TiesOrdered(ops[..n]);
      var g, op := Group(ops[..n], key, k), ops[n];
      assert TiesOrdered(g + [op]) == TiesOrdered(g) + [TiesOrdered(ops)[n]];
      assert g + [] == g && TiesOrdered(g) + [] == TiesOrdered(g);
    }
  }

  lemma TiesPartition(history: seq<KvOperation>, keys: seq<string>, parts: seq<seq<KvOperation>>)
    requires IsPartition(history, keys, parts)
    ensures IsPartition(TiesOrdered(history), keys, seq(|parts|, i requires 0 <= i < |parts| => TiesOrdered(parts[i])))
  {
    var h := TiesOrdered(history);
    forall k ensures Mentions(h, k) <==> Mentions(history, k) {
      assert forall x :: 0 <= x < |history| ==> h[x].input == history[x].input;
    }
    forall i | 0 <= i < |keys| ensures TiesOrdered(parts[i]) == Group(h, KeyOf, keys[i]) {
      GroupTies(history, KeyOf, keys[i]);
    }
  }

  ghost predicate WellFormedLists<I, O>(lists: seq<seq<Entry<I, O>>>) {
    forall i :: 0 <= i < |lists| ==> WellFormed(lists[i])
  }

  lemma PreparedWellFormed(history: seq<KvOperation>, keys: seq<string>, parts: seq<seq<KvOperation>>, lists: seq<seq<KvEntry>>)
    requires PreparedFrom(history, keys, parts, lists)
    ensures WellFormedLists(lists)
  {
    forall i | 0 <= i < |parts| ensures WellFormed(lists[i]) {
      assert EntriesFor(parts[i], lists[i]);
      EntriesWellFormed(parts[i], lists[i]);
    }
  }

  /** The driver's setup for these entry lists; each worker runs the single search on its list. */
  ghost function SetupOf<S, I, O>(m: Model<S, I, O>, lists: seq<seq<Entry<I, O>>>, computeInfo: bool, hasTimeout: bool): Setup<S, I, O>
    requires WellFormedLists(lists)
  {
    Setup(m, seq(|lists|, i requires 0 <= i < |lists| => OpsOf(lists[i])), computeInfo, hasTimeout)
  }

  ghost predicate AllLinearizable(lists: seq<seq<KvEntry>>)
    requires WellFormedLists(lists)
  {
    forall i :: 0 <= i < |lists| ==> Linearizable(REGISTER, OpsOf(lists[i]))
  }

  /** What the parts say about the whole, once sorted into entries. */
  lemma ListsDecide(history: seq<KvOperation>, keys: seq<string>, parts: seq<seq<KvOperation>>, lists: seq<seq<KvEntry>>)
    requires PreparedFrom(history, keys, parts, lists) && WellFormedLists(lists)
    ensures AllLinearizable(lists) ==> Linearizable(STORE, history)
    ensures Linearizable(STORE, TiesOrdered(history)) ==> AllLinearizable(lists)
  {
    PreparedWellFormed(history, keys, parts, lists);
    var ties := seq(|parts|, i requires 0 <= i < |parts| => TiesOrdered(parts[i]));
    TiesPartition(history, keys, parts);
    PartitionContract(history, keys, parts);
    PartitionContract(TiesOrdered(history), keys, ties);
    forall i | 0 <= i < |lists|
      ensures Linearizable(REGISTER, OpsOf(lists[i])) ==> Linearizable(REGISTER, parts[i])
      ensures Linearizable(REGISTER, ties[i]) ==> Linearizable(REGISTER, OpsOf(lists[i]))
    {
      assert EntriesFor(parts[i], lists[i]);
      EntriesLinearizable(REGISTER, parts[i], lists[i]);
    }
  }

  lemma NoTiesSame<S, I, O>(m: Model<S, I, O>, history: seq<Operation<I, O>>)
    requires NoTies(history)
    ensures Linearizable(m, history) ==> Linearizable(m, TiesOrdered(history))
  {
    RelaxOrder(m, history, TiesOrdered(history));
  }

  /** End to end, under every interleaving of workers, kill flag and timeout. Ok is always right. Illegal is right
      with ties between a return and a call read as ordered. Unless the timeout strikes the verdict is what the entry lists
      decide, and without ties it is Ok exactly when the history is linearizable as operations on one store. */
  lemma VerdictOnStore(history: seq<KvOperation>, lists: seq<seq<KvEntry>>, computeInfo: bool, hasTimeout: bool,
                       states: seq<State>, steps: seq<Step>)
    requires Prepared(history, lists) && WellFormedLists(lists)
    requires Run(SetupOf(REGISTER, lists, computeInfo, hasTimeout), states, steps) && states[|steps|].driver.Finished?
    ensures var result := states[|steps|].driver.result;
            && (result == Ok ==> Linearizable(STORE, history))
            && (result == Illegal ==> !Linearizable(STORE, TiesOrdered(history)))
            && (result == Unknown ==> TimesOut(steps))
            && (!TimesOut(steps) ==> (result == Ok <==> AllLinearizable(lists)))
            && (NoTies(history) && result == Illegal ==> !Linearizable(STORE, history))
            && (NoTies(history) && !TimesOut(steps) ==> (result == Ok <==> Linearizable(STORE, history)))
  {
    var keys, parts :| PreparedFrom(history, keys, parts, lists);
    hide PreparedFrom, Linearizable, AllLinearizable, WellFormedLists, Run, NoTies, TimesOut;
    ListsDecide(history, keys, parts, lists);
    VerdictOnLists(lists, computeInfo, hasTimeout, states, steps);
    if NoTies(history) { NoTiesSame(STORE, history); }
  }

  lemma VerdictOnLists(lists: seq<seq<KvEntry>>, computeInfo: bool, hasTimeout: bool, states: seq<State>, steps: seq<Step>)
    requires WellFormedLists(lists)
    requires Run(SetupOf(REGISTER, lists, computeInfo, hasTimeout), states, steps) && states[|steps|].driver.Finished?
    ensures var result := states[|steps|].driver.result;
            && (result == Ok ==> AllLinearizable(lists))
            && (result == Illegal ==> !AllLinearizable(lists))
            && (result == Unknown ==> TimesOut(steps))
  {
    var c := SetupOf(REGISTER, lists, computeInfo, hasTimeout);
    RegisterEqualitySound();
    VerdictSound(c, states, steps);
    assert forall i :: 0 <= i < |lists| ==> c.parts[i] == OpsOf(lists[i]);
    hide Linearizable, WellFormed, Run, EqualitySound;
  }

  /** A put and a get that reads the old value, called at the very time at which the put returns. */
  const TIED: seq<KvOperation> :=
    [Operation(0, KvInput(1, "x", "a"), 0, KvOutput(""), 1), Operation(1, KvInput(0, "x", ""), 1, KvOutput(""), 2)]

  /** Ties do matter: the get may come first, but an order of the entries that the sort may leave rules it out. */
  lemma TieMisjudged()
    ensures Linearizable(STORE, TIED)
    ensures var entries := RawEntries(TIED);
            Sorted(entries) && WellFormed(entries) && !Linearizable(REGISTER, OpsOf(entries))
  {
    TiedEntries();
    var ops := OpsOf(RawEntries(TIED));
    hide OpsOf, RawEntries, WellFormed, Sorted, StateAfter;
    TwoSteps(STORE, TIED, 1, 0);
    assert Linearization(STORE, TIED, [1, 0]);
    TwoSteps(REGISTER, ops, 0, 1);
    forall l: seq<nat> ensures !Linearization(REGISTER, ops, l) {
      if |l| == 2 && InRange(l, 2) && NoDup(l) && l[0] == 0 {
        assert l == [0, 1];
      }
    }
  }

  lemma TiedEntries()
    ensures var entries := RawEntries(TIED);
            && Sorted(entries) && WellFormed(entries) && |entries| == 4
            && var ops := OpsOf(entries);
               && ops[0].ret == 1 && ops[1].call == 2
               && (forall x :: 0 <= x < 2 ==> ops[x].input == TIED[x].input && ops[x].output == TIED[x].output)
  {
    var entries := RawEntries(TIED);
    RawEntryAt(TIED, 0);
    RawEntryAt(TIED, 1);
    hide RawEntries;
    EntriesWellFormed(TIED, entries);
    hide OpsOf, WellFormed;
    EntryAt(entries, 0);
    EntryAt(entries, 1);
    EntryAt(entries, 2);
    EntryAt(entries, 3);
  }

  lemma TwoSteps<S, I, O>(m: Model<S, I, O>, ops: seq<Operation<I, O>>, x: nat, y: nat)
    ensures StateAfter(m, ops, [x, y]) ==
            var s := Apply(m, ops, m.init, x);
            if s.Some? then Apply(m, ops, s.value, y) else None
  {
    assert [x, y][..1] == [x] && [x][..0] == [];
    assert StateAfter(m, ops, [x]) == Apply(m, ops, m.init, x);
  }

  /** The empty history has nothing to check, and without a timeout its driver never reports. */
  lemma EmptyHistoryNeverAnswered(history: seq<KvOperation>, lists: seq<seq<KvEntry>>, computeInfo: bool, hasTimeout: bool,
                                  states: seq<State>, steps: seq<Step>)
    requires Prepared(history, lists) && WellFormedLists(lists)
    requires Run(SetupOf(REGISTER, lists, computeInfo, hasTimeout), states, steps)
    ensures history == [] <==> lists == []
    ensures history == [] && !hasTimeout ==> states[|steps|].driver == Looping
    ensures history == [] && states[|steps|].driver.Finished? ==> states[|steps|].driver.result == Unknown
  {
    var keys, parts :| PreparedFrom(history, keys, parts, lists);
    if history == [] {
      assert keys == [] || (keys[0] in keys && Mentions(history, keys[0]));
      NoPartitionsNoVerdict(SetupOf(REGISTER, lists, computeInfo, hasTimeout), states, steps);
    } else {
      assert Mentions(history, history[0].input.key);
    }
  }

  /** When an answer is sure to come: every unfinished run can go on, and by `Completes` to a verdict, if and only if
      the history is not empty or there is a timeout. */
  lemma AnsweredExactly(history: seq<KvOperation>, lists: seq<seq<KvEntry>>, computeInfo: bool, hasTimeout: bool)
    requires Prepared(history, lists) && WellFormedLists(lists)
    ensures var c := SetupOf(REGISTER, lists, computeInfo, hasTimeout);
            (forall states: seq<State>, steps: seq<Step> ::
               Run(c, states, steps) && !states[|steps|].driver.Finished? ==> CanStep(c, states[|steps|])) <==>
            history != [] || hasTimeout
  {
    var keys, parts :| PreparedFrom(history, keys, parts, lists);
    if history == [] {
      assert keys == [] || (keys[0] in keys && Mentions(history, keys[0]));
    } else {
      assert Mentions(history, history[0].input.key);
    }
    AlwaysMoves(SetupOf(REGISTER, lists, computeInfo, hasTimeout));
  }

  /** Event histories are checked as a single partition: Ok says that the operations, timed by the positions of their
      events, are linearizable, Illegal that they are not if the model's equality is sound, and Unknown that the timeout has struck. */
  lemma VerdictOnEvents<S(!new), I(!new), O(!new)>(m: Model<S, I, O>, events: seq<Events.Event<I, O>>, renumbered: seq<Events.Event<I, O>>, k: nat,
                                 entries: seq<Entry<I, O>>, computeInfo: bool, hasTimeout: bool, states: seq<State>,
                                 steps: seq<Step>)
    requires Events.Paired(events) && Events.Renumbered(events, renumbered, k)
    requires Events.Converted(renumbered, entries)
    requires WellFormed(entries)
    requires Run(Setup(m, [OpsOf(entries)], computeInfo, hasTimeout), states, steps) && states[|steps|].driver.Finished?
    ensures |OpsOf(entries)| == k && |events| == 2 * k
    ensures var result := states[|steps|].driver.result;
            && (result == Ok ==> Linearizable(m, OpsOf(entries)))
            && (result == Illegal && EqualitySound(m) ==> !Linearizable(m, OpsOf(entries)))
            && (result == Unknown ==> TimesOut(steps))
  {
    Events.EventsWellFormed(events, renumbered, k, entries);
    var c := Setup(m, [OpsOf(entries)], computeInfo, hasTimeout);
    VerdictSound(c, states, steps);
    assert c.parts[0] == OpsOf(entries);
  }
}
