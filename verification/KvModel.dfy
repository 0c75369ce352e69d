/** The key/value store as the lab tests describe it to the checker: histories are split by
    key, and each part is checked against a single string register. */
module KvModel {
  import opened Wrappers
  import opened Sequences
  import opened Linearizability
  import opened Locality

  type Uint8 = x: int | 0 <= x < 256

  datatype KvInput = KvInput(op: Uint8, key: string, value: string)  // op 0: get, 1: put, otherwise: append
  datatype KvOutput = KvOutput(value: string)

  type KvOperation = Operation<KvInput, KvOutput>

  /** The value of one key; the partition takes care of which key that is. */
  function Step(st: string, inp: KvInput, out: KvOutput): (bool, string) {
    if inp.op == 0 then (out.value == st, st)
    else if inp.op == 1 then (true, inp.value)
    else (true, st + inp.value)
  }

  const REGISTER: Model<string, KvInput, KvOutput> := Model("", Step, (s: string, t: string) => s == t)

  lemma RegisterEqualitySound()
    ensures EqualitySound(REGISTER)
  {
  }

  /** How an operation is shown. A missing input fails the conversion to an input of this model, which panics. */
  function DescribeOperation(inp: Option<KvInput>, out: KvOutput): Option<string> {
    match inp
    case None => None
    case Some(KvInput(op, key, value)) =>
      Some(if op == 0 then "get('" + key + "') -> '" + out.value + "'"
           else if op == 1 then "put('" + key + "', '" + value + "')"
           else if op == 2 then "append('" + key + "', '" + value + "')"
           else "<invalid>")
  }

  /** The four forms, by example, and the one case that panics. */
  lemma Descriptions(inp: Option<KvInput>, out: KvOutput)
    ensures DescribeOperation(inp, out).None? <==> inp.None?
    ensures DescribeOperation(Some(KvInput(0, "k", "v")), KvOutput("w")) == Some("get('k') -> 'w'")
    ensures DescribeOperation(Some(KvInput(1, "k", "v")), KvOutput("w")) == Some("put('k', 'v')")
    ensures DescribeOperation(Some(KvInput(2, "k", "v")), KvOutput("w")) == Some("append('k', 'v')")
    ensures DescribeOperation(Some(KvInput(3, "k", "v")), KvOutput("w")) == Some("<invalid>")
  {
    assert "get('" + "k" + "') -> '" + "w" + "'" == "get('k') -> 'w'";
    assert "put('" + "k" + "', '" + "v" + "')" == "put('k', 'v')";
    assert "append('" + "k" + "', '" + "v" + "')" == "append('k', 'v')";
  }

  function KeyOf(inp: KvInput): string { inp.key }

  // ---------------------------------------------------------------------------------
  // The store as a whole

  function ValueOf(st: map<string, string>, key: string): string { if key in st then st[key] else "" }

  /** A map from keys to strings, on which a missing key reads as the empty string. */
  function StoreStep(st: map<string, string>, inp: KvInput, out: KvOutput): (bool, map<string, string>) {
    if inp.op == 0 then (out.value == ValueOf(st, inp.key), st)
    else if inp.op == 1 then (true, st[inp.key := inp.value])
    else (true, st[inp.key := ValueOf(st, inp.key) + inp.value])
  }

  const STORE: Model<map<string, string>, KvInput, KvOutput> :=
    Model(map[], StoreStep, (s: map<string, string>, t: map<string, string>) => s == t)

  /** The store accepts the same sequences of operations as a family of independent registers. */
  lemma {:induction false} StoreIsProduct(ops: seq<KvOperation>, l: seq<nat>)
    ensures StateAfter(STORE, ops, l).Some? <==> StateAfter(Product(REGISTER, KeyOf), ops, l).Some?
    ensures StateAfter(STORE, ops, l).Some? ==>
              forall k :: ValueOf(StateAfter(STORE, ops, l).value, k) ==
                          Lookup(REGISTER, StateAfter(Product(REGISTER, KeyOf), ops, l).value, k)
  {
    if l != [] {
      var p, x := l[..|l| - 1], l[|l| - 1];
      StoreIsProduct(ops, p);
      if StateAfter(STORE, ops, p).Some? && x < |ops| {
        StepAgrees(StateAfter(STORE, ops, p).value, StateAfter(Product(REGISTER, KeyOf), ops, p).value, ops[x].input, ops[x].output);
      }
    }
  }

  lemma StepAgrees(st: map<string, string>, family: map<string, string>, inp: KvInput, out: KvOutput)
    requires forall k :: ValueOf(st, k) == Lookup(REGISTER, family, k)
    ensures var (ok, st'), (ok', family') := STORE.step(st, inp, out), Product(REGISTER, KeyOf).step(family, inp, out);
            ok == ok' && (ok ==> forall k :: ValueOf(st', k) == Lookup(REGISTER, family', k))
  {
    var s := Lookup(REGISTER, family, KeyOf(inp));
    assert s == ValueOf(st, inp.key);
    assert REGISTER.step(s, inp, out) == Step(s, inp, out);
    assert Product(REGISTER, KeyOf).step(family, inp, out) == (Step(s, inp, out).0, family[inp.key := Step(s, inp, out).1]);
    assert STORE.step(st, inp, out) == StoreStep(st, inp, out);
    forall k
      ensures ValueOf(StoreStep(st, inp, out).1, k) == Lookup(REGISTER, family[inp.key := Step(s, inp, out).1], k)
    {
      assert ValueOf(st, k) == Lookup(REGISTER, family, k);
    }
  }

  lemma StoreLinearizable(ops: seq<KvOperation>)
    ensures Linearizable(STORE, ops) <==> Linearizable(Product(REGISTER, KeyOf), ops)
  {
    forall l ensures Linearization(STORE, ops, l) <==> Linearization(Product(REGISTER, KeyOf), ops, l) {
      StoreIsProduct(ops, l);
    }
  }

  // ---------------------------------------------------------------------------------
  // Partition

  predicate AtMost(a: string, b: string) {
    a == "" || (b != "" && (a[0] < b[0] || (a[0] == b[0] && AtMost(a[1..], b[1..]))))
  }

  /** At the first position where they differ `a` has the smaller character. */
  ghost predicate SmallerAt(a: string, b: string, i: nat) {
    i < |a| && i < |b| && a[..i] == b[..i] && a[i] < b[i]
  }

  /** The order is the lexicographic one: a prefix comes first, and otherwise the first difference decides. */
  lemma {:induction false} AtMostLexicographic(a: string, b: string)
    ensures AtMost(a, b) <==> a <= b || exists i: nat :: SmallerAt(a, b, i)
  {
    if a != "" && b != "" {
      var p, q := a[1..], b[1..];
      AtMostLexicographic(p, q);
      assert a == [a[0]] + p && b == [b[0]] + q;
      if a[0] < b[0] {
        assert SmallerAt(a, b, 0);
      }
      if i: nat :| a[0] == b[0] && SmallerAt(p, q, i) {
        assert a[..i + 1] == [a[0]] + p[..i] && b[..i + 1] == [b[0]] + q[..i];
        assert SmallerAt(a, b, i + 1);
      }
      if i: nat :| i > 0 && SmallerAt(a, b, i) {
        assert a[..i][0] == a[0] && b[..i][0] == b[0];
        assert p[..i - 1] == a[..i][1..] && q[..i - 1] == b[..i][1..];
        assert SmallerAt(p, q, i - 1);
      }
    }
  }

  lemma AtMostTotal(a: string, b: string)
    ensures AtMost(a, b) || AtMost(b, a)
  {
  }

  lemma {:induction false} AtMostTransitive(a: string, b: string, c: string)
    requires AtMost(a, b) && AtMost(b, c)
    ensures AtMost(a, c)
  {
    if a != "" && a[0] == b[0] == c[0] { AtMostTransitive(a[1..], b[1..], c[1..]); }
  }

  ghost predicate SortedStrings(keys: seq<string>) {
    forall i, j :: 0 <= i < j < |keys| ==> AtMost(keys[i], keys[j])
  }

  /** Adds `k` to a sorted list of other keys. */
  method InsertKey(keys: seq<string>, k: string) returns (r: seq<string>)
    requires SortedStrings(keys) && NoDup(keys) && k !in keys
    ensures SortedStrings(r) && NoDup(r) && forall x :: x in r <==> x in keys || x == k
  {
    var i := |keys|;
    while i > 0 && !AtMost(keys[i - 1], k)
      invariant 0 <= i <= |keys|
      invariant forall j :: i <= j < |keys| ==> AtMost(k, keys[j])
    {
      i := i - 1;
      AtMostTotal(keys[i], k);
    }
    InsertKeyAt(keys, k, i);
    InsertedMembers(keys, k, i);
    r := InsertAt(keys, k, i);
  }

  lemma InsertKeyAt(keys: seq<string>, k: string, i: nat)
    requires SortedStrings(keys) && NoDup(keys) && k !in keys && i <= |keys|
    requires i > 0 ==> AtMost(keys[i - 1], k)
    requires forall j :: i <= j < |keys| ==> AtMost(k, keys[j])
    ensures SortedStrings(InsertAt(keys, k, i)) && NoDup(InsertAt(keys, k, i))
  {
    forall j | 0 <= j < i ensures AtMost(keys[j], k) {
      if j < i - 1 { AtMostTransitive(keys[j], keys[i - 1], k); }
    }
    InsertedAt(keys, k, i);
    hide AtMost, InsertAt;
  }

  ghost predicate Mentions(history: seq<KvOperation>, k: string) {
    exists x :: 0 <= x < |history| && history[x].input.key == k
  }

  /** The distinct keys of the history in sorted order, each with the operations on it. */
  ghost predicate IsPartition(history: seq<KvOperation>, keys: seq<string>, parts: seq<seq<KvOperation>>) {
    && SortedStrings(keys) && NoDup(keys) && |parts| == |keys|
    && (forall k :: k in keys <==> Mentions(history, k))
    && (forall i :: 0 <= i < |keys| ==> parts[i] == Group(history, KeyOf, keys[i]))
  }

  /** The operations of the history collected by key. */
  ghost predicate Collected(history: seq<KvOperation>, m: map<string, seq<KvOperation>>) {
    && (forall k :: k in m <==> Mentions(history, k))
    && (forall k :: Group(history, KeyOf, k) == if k in m then m[k] else [])
  }

  lemma CollectedNext(history: seq<KvOperation>, m: map<string, seq<KvOperation>>, op: KvOperation)
    requires Collected(history, m)
    ensures var key := op.input.key;
            Collected(history + [op], m[key := (if key in m then m[key] else []) + [op]])
  {
    var h' := history + [op];
    assert h'[..|history|] == history;
    assert h'[|history|] == op;
    forall k ensures Mentions(h', k) <==> Mentions(history, k) || k == op.input.key {
      if Mentions(history, k) {
        var x :| 0 <= x < |history| && history[x].input.key == k;
        assert h'[x].input.key == k;
      }
    }
  }

  method CollectByKey(history: seq<KvOperation>) returns (m: map<string, seq<KvOperation>>)
    ensures Collected(history, m)
  {
    m := map[];
    for i := 0 to |history|
      invariant Collected(history[..i], m)
    {
      var key := history[i].input.key;
      CollectedNext(history[..i], m, history[i]);
      assert history[..i + 1] == history[..i] + [history[i]];
      m := m[key := (if key in m then m[key] else []) + [history[i]]];
    }
    assert history[..|history|] == history;
  }

  method SortKeys(keys: set<string>) returns (sorted: seq<string>)
    ensures SortedStrings(sorted) && NoDup(sorted) && forall k :: k in sorted <==> k in keys
  {
    sorted := [];
    var left := keys;
    while left != {}
      invariant SortedStrings(sorted) && NoDup(sorted)
      invariant left <= keys && forall k :: k in sorted <==> k in keys && k !in left
      decreases left
    {
      var k :| k in left;
      sorted := InsertKey(sorted, k);
      left := left - {k};
    }
  }

  method Partition(history: seq<KvOperation>) returns (parts: seq<seq<KvOperation>>)
    ensures exists keys :: IsPartition(history, keys, parts)
  {
    var m := CollectByKey(history);
    var sorted := SortKeys(m.Keys);
    parts := [];
    for i := 0 to |sorted|
      invariant |parts| == i && forall j :: 0 <= j < i ==> parts[j] == Group(history, KeyOf, sorted[j])
    {
      assert sorted[i] in sorted;
      parts := parts + [m[sorted[i]]];
    }
    assert IsPartition(history, sorted, parts);
  }

  /** The promise made for partition functions: a history is linearizable, as operations on one store, if and
      only if every part is, as operations on one register. */
  lemma PartitionContract(history: seq<KvOperation>, keys: seq<string>, parts: seq<seq<KvOperation>>)
    requires IsPartition(history, keys, parts)
    ensures Linearizable(STORE, history) <==> forall i :: 0 <= i < |parts| ==> Linearizable(REGISTER, parts[i])
  {
    StoreLinearizable(history);
    Local(REGISTER, KeyOf, history);
    if forall i :: 0 <= i < |parts| ==> Linearizable(REGISTER, parts[i]) {
      forall x | 0 <= x < |history| ensures Linearizable(REGISTER, Group(history, KeyOf, KeyOf(history[x].input))) {
        var k := history[x].input.key;
        assert Mentions(history, k);
        var i :| 0 <= i < |keys| && keys[i] == k;
        assert Linearizable(REGISTER, parts[i]);
      }
    }
    if forall x :: 0 <= x < |history| ==> Linearizable(REGISTER, Group(history, KeyOf, KeyOf(history[x].input))) {
      forall i | 0 <= i < |parts| ensures Linearizable(REGISTER, parts[i]) {
        assert keys[i] in keys;
        var x :| 0 <= x < |history| && history[x].input.key == keys[i];
        assert Linearizable(REGISTER, Group(history, KeyOf, KeyOf(history[x].input)));
      }
    }
  }
}
