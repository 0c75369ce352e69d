/** Why histories may be checked key by key: a history over a product of independent
    objects is linearizable exactly when its restriction to every object is. */
module Locality {
  import opened Wrappers
  import opened Sequences
  import opened Linearizability

  /** One object's state inside a product state; objects not touched yet are in their initial state. */
  ghost function Lookup<K, S, I, O>(m: Model<S, I, O>, st: map<K, S>, k: K): S {
    if k in st then st[k] else m.init
  }

  /** The model of a family of independent objects, each behaving like `m`, addressed by `key`. */
  ghost function Product<K, S, I, O>(m: Model<S, I, O>, key: I -> K): Model<map<K, S>, I, O> {
    Model(map[],
          (st: map<K, S>, i: I, o: O) =>
            var (ok, s) := m.step(Lookup(m, st, key(i)), i, o); (ok, st[key(i) := s]),
          (s: map<K, S>, t: map<K, S>) => s == t)
  }

  ghost predicate HasKey<K, I, O>(ops: seq<Operation<I, O>>, key: I -> K, x: nat, k: K) {
    x < |ops| && key(ops[x].input) == k
  }

  /** The ids in `l` whose operation is on `k`, in the order of `l`. */
  ghost function OnKey<K, I, O>(ops: seq<Operation<I, O>>, key: I -> K, l: seq<nat>, k: K): seq<nat> {
    if l == [] then [] else
      var x := l[|l| - 1];
      OnKey(ops, key, l[..|l| - 1], k) + if HasKey(ops, key, x, k) then [x] else []
  }

  lemma OnKeySnoc<K, I, O>(ops: seq<Operation<I, O>>, key: I -> K, l: seq<nat>, x: nat, k: K)
    ensures OnKey(ops, key, l + [x], k) == OnKey(ops, key, l, k) + if HasKey(ops, key, x, k) then [x] else []
  {
    assert (l + [x])[..|l|] == l;
  }

  lemma {:induction false} OnKeyMembers<K, I, O>(ops: seq<Operation<I, O>>, key: I -> K, l: seq<nat>, k: K)
    ensures forall x :: x in OnKey(ops, key, l, k) <==> x in l && HasKey(ops, key, x, k)
    ensures NoDup(l) ==> NoDup(OnKey(ops, key, l, k))
  {
    if l != [] {
      var p, x := l[..|l| - 1], l[|l| - 1];
      OnKeyMembers(ops, key, p, k);
      assert l == p + [x];
    }
  }

  // ---------------------------------------------------------------------------------
  // Running a product is running its objects side by side

  lemma {:induction false} ProductState<K(!new), S, I, O>(m: Model<S, I, O>, key: I -> K, ops: seq<Operation<I, O>>, l: seq<nat>, k: K)
    requires StateAfter(Product(m, key), ops, l).Some?
    ensures StateAfter(m, ops, OnKey(ops, key, l, k)) == Some(Lookup(m, StateAfter(Product(m, key), ops, l).value, k))
  {
    if l != [] {
      var p, x := l[..|l| - 1], l[|l| - 1];
      ProductState(m, key, ops, p, k);
      assert l == p + [x];
      var f := OnKey(ops, key, p, k);
      if HasKey(ops, key, x, k) {
        assert (f + [x])[..|f|] == f;
      } else {
        assert f + [] == f;
      }
    }
  }

  lemma {:induction false} ProductRuns<K(!new), S, I, O>(m: Model<S, I, O>, key: I -> K, ops: seq<Operation<I, O>>, l: seq<nat>, x: nat)
    requires StateAfter(Product(m, key), ops, l).Some? && x < |ops|
    requires StateAfter(m, ops, OnKey(ops, key, l, key(ops[x].input)) + [x]).Some?
    ensures StateAfter(Product(m, key), ops, l + [x]).Some?
  {
    var k := key(ops[x].input);
    var f := OnKey(ops, key, l, k);
    ProductState(m, key, ops, l, k);
    assert (f + [x])[..|f|] == f;
    assert (l + [x])[..|l|] == l;
  }

  lemma {:induction false} StateAfterPrefix<S, I, O>(m: Model<S, I, O>, ops: seq<Operation<I, O>>, l: seq<nat>, k: nat)
    requires StateAfter(m, ops, l).Some? && k <= |l|
    ensures StateAfter(m, ops, l[..k]).Some?
  {
    if k < |l| {
      StateAfterPrefix(m, ops, l[..|l| - 1], k);
      assert l[..|l| - 1][..k] == l[..k];
    } else {
      assert l[..k] == l;
    }
  }

  // ---------------------------------------------------------------------------------
  // Linearizing the operations of one key, named by their ids in the whole history

  ghost predicate Respects<I, O>(ops: seq<Operation<I, O>>, l: seq<nat>)
    requires InRange(l, |ops|)
  {
    forall i, j :: 0 <= i <= j < |l| ==> !Precedes(ops, l[j], l[i])
  }

  /** `l` linearizes the operations on `k`. */
  ghost predicate KeyLinearization<K, S, I, O>(m: Model<S, I, O>, key: I -> K, ops: seq<Operation<I, O>>, k: K, l: seq<nat>) {
    && NoDup(l) && InRange(l, |ops|)
    && (forall x: nat :: x in l <==> HasKey(ops, key, x, k))
    && Respects(ops, l) && StateAfter(m, ops, l).Some?
  }

  /** A linearization of the whole restricts to one of every key. */
  lemma Restrict<K(!new), S, I, O>(m: Model<S, I, O>, key: I -> K, ops: seq<Operation<I, O>>, l: seq<nat>, k: K)
    requires Linearization(Product(m, key), ops, l)
    ensures KeyLinearization(m, key, ops, k, OnKey(ops, key, l, k))
  {
    OnKeyMembers(ops, key, l, k);
    ProductState(m, key, ops, l, k);
    RespectsOnKey(ops, key, l, k);
    CountIds(l, |ops|);
    forall x: nat | HasKey(ops, key, x, k) ensures x in l { assert x in Ids(l); }
  }

  lemma {:induction false} RespectsOnKey<K, I, O>(ops: seq<Operation<I, O>>, key: I -> K, l: seq<nat>, k: K)
    requires InRange(l, |ops|) && Respects(ops, l)
    ensures InRange(OnKey(ops, key, l, k), |ops|) && Respects(ops, OnKey(ops, key, l, k))
  {
    if l != [] {
      var p, x := l[..|l| - 1], l[|l| - 1];
      RespectsOnKey(ops, key, p, k);
      OnKeyMembers(ops, key, p, k);
      var g, f := OnKey(ops, key, p, k), OnKey(ops, key, l, k);
      assert f == g + if HasKey(ops, key, x, k) then [x] else [];
      hide OnKey, HasKey;
      forall i, j | 0 <= i <= j < |f| ensures f[j] < |ops| && !Precedes(ops, f[j], f[i]) {
        if j == |g| {
          var y := if i < |g| then g[i] else x;
          assert y in g ==> y in p;
          assert y in l;
          var a :| 0 <= a < |l| && l[a] == y;
          assert !Precedes(ops, l[|l| - 1], l[a]);
        }
      }
    }
  }

  /** Linearizations of the single keys, kept for every key that occurs. */
  ghost predicate KeyLinearizations<K, S, I, O>(m: Model<S, I, O>, key: I -> K, ops: seq<Operation<I, O>>, lins: map<K, seq<nat>>) {
    && (forall x :: 0 <= x < |ops| ==> key(ops[x].input) in lins)
    && (forall k :: k in lins ==> KeyLinearization(m, key, ops, k, lins[k]))
  }

  /** `l` is what a merge of the key linearizations looks like half way. */
  ghost predicate Merging<K, S, I, O>(m: Model<S, I, O>, key: I -> K, ops: seq<Operation<I, O>>, lins: map<K, seq<nat>>, l: seq<nat>) {
    && PartialLinearization(Product(m, key), ops, l)
    && forall k :: k in lins ==> OnKey(ops, key, l, k) <= lins[k]
  }

  lemma EarliestReturn<I, O>(ops: seq<Operation<I, O>>, rest: set<nat>) returns (r: nat)
    requires rest != {} && forall x :: x in rest ==> x < |ops|
    ensures r in rest && forall x :: x in rest ==> ops[r].ret <= ops[x].ret
    decreases rest
  {
    r :| r in rest;
    if rest != {r} {
      var q := EarliestReturn(ops, rest - {r});
      if ops[q].ret < ops[r].ret { r := q; }
    }
  }

  /** The next operation of the merge: take the unlinearized operation that returns first; the next
      operation of its key can go now. */
  lemma PickNext<K(!new), S, I, O>(m: Model<S, I, O>, key: I -> K, ops: seq<Operation<I, O>>, lins: map<K, seq<nat>>, l: seq<nat>)
    returns (o: nat, k: K)
    requires KeyLinearizations(m, key, ops, lins) && NoDup(l) && InRange(l, |ops|) && |l| < |ops|
    requires forall k :: k in lins ==> OnKey(ops, key, l, k) <= lins[k]
    ensures k in lins && HasKey(ops, key, o, k) && Enabled(ops, Ids(l), o)
    ensures OnKey(ops, key, l, k) + [o] <= lins[k]
  {
    CountIds(l, |ops|);
    var rest := AllIds(|ops|) - Ids(l);
    assert Ids(l) <= AllIds(|ops|);
    var r := EarliestReturn(ops, rest);
    k := key(ops[r].input);
    assert KeyLinearization(m, key, ops, k, lins[k]) && HasKey(ops, key, r, k);
    OnKeyMembers(ops, key, l, k);
    o := NextOfKey(ops, OnKey(ops, key, l, k), lins[k], r);
    forall p: nat | p < |ops| && p !in Ids(l) ensures !Precedes(ops, p, o) {
      assert p in rest;
    }
  }

  lemma MergeStep<K(!new), S, I, O>(m: Model<S, I, O>, key: I -> K, ops: seq<Operation<I, O>>, lins: map<K, seq<nat>>, l: seq<nat>)
    returns (o: nat)
    requires KeyLinearizations(m, key, ops, lins) && Merging(m, key, ops, lins, l) && |l| < |ops|
    ensures Merging(m, key, ops, lins, l + [o])
  {
    var k;
    o, k := PickNext(m, key, ops, lins, l);
    var f := OnKey(ops, key, l, k) + [o];
    assert KeyLinearization(m, key, ops, k, lins[k]);
    StateAfterPrefix(m, ops, lins[k], |f|);
    assert lins[k][..|f|] == f;
    ProductRuns(m, key, ops, l, o);
    PartialExtend(Product(m, key), ops, l, o);
    forall k' | k' in lins ensures OnKey(ops, key, l + [o], k') <= lins[k'] {
      OnKeySnoc(ops, key, l, o, k');
    }
  }

  /** The first operation of `all` after the prefix `done` does not come after `r`, which is still to do. */
  lemma NextOfKey<I, O>(ops: seq<Operation<I, O>>, done: seq<nat>, all: seq<nat>, r: nat) returns (o: nat)
    requires NoDup(all) && InRange(all, |ops|) && Respects(ops, all)
    requires done <= all && r in all && r !in done
    ensures |done| < |all| && o == all[|done|] && o !in done && !(ops[r].ret < ops[o].call)
  {
    var i :| 0 <= i < |all| && all[i] == r;
    assert forall j :: 0 <= j < |done| ==> all[j] == done[j];
    o := all[|done|];
    assert !Precedes(ops, all[i], all[|done|]);
  }

  lemma {:induction false} Merge<K(!new), S, I, O>(m: Model<S, I, O>, key: I -> K, ops: seq<Operation<I, O>>, lins: map<K, seq<nat>>, l: seq<nat>)
    returns (full: seq<nat>)
    requires KeyLinearizations(m, key, ops, lins) && Merging(m, key, ops, lins, l)
    ensures Linearization(Product(m, key), ops, full)
    decreases |ops| - |l|
  {
    CountIds(l, |ops|);
    if |l| < |ops| {
      var o := MergeStep(m, key, ops, lins, l);
      full := Merge(m, key, ops, lins, l + [o]);
    } else {
      CompletePartialIsLinearization(Product(m, key), ops, l);
      full := l;
    }
  }

  // ---------------------------------------------------------------------------------
  // The groups that partitioning produces

  /** The operations on `k`, in the order of the history. */
  function Group<K(==), I, O>(ops: seq<Operation<I, O>>, key: I -> K, k: K): seq<Operation<I, O>> {
    if ops == [] then [] else
      var op := ops[|ops| - 1];
      Group(ops[..|ops| - 1], key, k) + if key(op.input) == k then [op] else []
  }

  /** Where the operations of the group come from. */
  ghost predicate GroupIds<K, I, O>(ops: seq<Operation<I, O>>, key: I -> K, k: K, group: seq<Operation<I, O>>, g: seq<nat>) {
    && |g| == |group| && NoDup(g) && InRange(g, |ops|)
    && (forall x: nat :: x in g <==> HasKey(ops, key, x, k))
    && (forall i :: 0 <= i < |g| ==> group[i] == ops[g[i]])
  }

  lemma {:induction false} GroupHasIds<K, I, O>(ops: seq<Operation<I, O>>, key: I -> K, k: K) returns (g: seq<nat>)
    ensures GroupIds(ops, key, k, Group(ops, key, k), g)
  {
    if ops == [] {
      g := [];
    } else {
      var n := |ops| - 1;
      var p := GroupHasIds(ops[..n], key, k);
      g := p + if key(ops[n].input) == k then [n] else [];
      forall x: nat ensures x in g <==> HasKey(ops, key, x, k) {
        assert x in p <==> HasKey(ops[..n], key, x, k);
      }
    }
  }

  ghost function ToWhole(g: seq<nat>, l: seq<nat>): seq<nat>
    requires InRange(l, |g|)
  {
    seq(|l|, i requires 0 <= i < |l| => g[l[i]])
  }

  lemma {:induction false} GroupState<S, I, O>(m: Model<S, I, O>, ops: seq<Operation<I, O>>, group: seq<Operation<I, O>>, g: seq<nat>, l: seq<nat>)
    requires |g| == |group| && InRange(g, |ops|) && InRange(l, |g|)
    requires forall i :: 0 <= i < |g| ==> group[i] == ops[g[i]]
    ensures StateAfter(m, ops, ToWhole(g, l)) == StateAfter(m, group, l)
  {
    if l != [] {
      var p := l[..|l| - 1];
      GroupState(m, ops, group, g, p);
      assert ToWhole(g, l)[..|l| - 1] == ToWhole(g, p);
    }
  }

  lemma GroupToWhole<K, S, I, O>(m: Model<S, I, O>, key: I -> K, ops: seq<Operation<I, O>>, k: K,
                                 group: seq<Operation<I, O>>, g: seq<nat>, l: seq<nat>)
    requires GroupIds(ops, key, k, group, g) && Linearization(m, group, l)
    ensures KeyLinearization(m, key, ops, k, ToWhole(g, l))
  {
    var w := ToWhole(g, l);
    GroupState(m, ops, group, g, l);
    CountIds(l, |g|);
    forall x: nat | x in g ensures x in w {
      var i: nat :| i < |g| && g[i] == x;
      assert i in Ids(l);
      var j :| 0 <= j < |l| && l[j] == i;
      assert w[j] == x;
    }
    forall x | x in w ensures x in g {
      var j :| 0 <= j < |w| && w[j] == x;
    }
    forall i, j | 0 <= i <= j < |w| ensures (i < j ==> w[i] != w[j]) && !Precedes(ops, w[j], w[i]) {
      assert !Precedes(group, l[j], l[i]);
    }
  }

  ghost function IndexIn(g: seq<nat>, x: nat): (i: nat)
    requires x in g
    ensures i < |g| && g[i] == x
  {
    var i: nat :| i < |g| && g[i] == x; i
  }

  lemma WholeToGroup<K, S, I, O>(m: Model<S, I, O>, key: I -> K, ops: seq<Operation<I, O>>, k: K,
                                 group: seq<Operation<I, O>>, g: seq<nat>, w: seq<nat>)
    requires GroupIds(ops, key, k, group, g) && KeyLinearization(m, key, ops, k, w)
    ensures Linearizable(m, group)
  {
    assert forall i :: 0 <= i < |w| ==> w[i] in w && w[i] in g;
    var l := seq(|w|, i requires 0 <= i < |w| => IndexIn(g, w[i]));
    assert ToWhole(g, l) == w;
    GroupState(m, ops, group, g, l);
    assert Ids(w) == Ids(g) by {
      forall x ensures x in Ids(w) <==> x in Ids(g) {
        assert x in w <==> HasKey(ops, key, x, k);
      }
    }
    IdsSize(w);
    IdsSize(g);
    forall i, j | 0 <= i <= j < |l| ensures (i < j ==> l[i] != l[j]) && !Precedes(group, l[j], l[i]) {
      assert (i < j ==> w[i] != w[j]) && !Precedes(ops, w[j], w[i]);
    }
    assert Linearization(m, group, l);
  }

  lemma {:induction false} CollectKeys<K(!new), S, I, O>(m: Model<S, I, O>, key: I -> K, ops: seq<Operation<I, O>>, n: nat)
    returns (lins: map<K, seq<nat>>)
    requires n <= |ops|
    requires forall x :: 0 <= x < |ops| ==> Linearizable(m, Group(ops, key, key(ops[x].input)))
    ensures forall x :: 0 <= x < n ==> key(ops[x].input) in lins
    ensures forall k :: k in lins ==> KeyLinearization(m, key, ops, k, lins[k])
  {
    if n == 0 {
      lins := map[];
    } else {
      lins := CollectKeys(m, key, ops, n - 1);
      var k := key(ops[n - 1].input);
      var g := GroupHasIds(ops, key, k);
      var l :| Linearization(m, Group(ops, key, k), l);
      GroupToWhole(m, key, ops, k, Group(ops, key, k), g, l);
      lins := lins[k := ToWhole(g, l)];
    }
  }

  lemma {:induction false} LocalDown<K(!new), S, I, O>(m: Model<S, I, O>, key: I -> K, ops: seq<Operation<I, O>>, x: nat)
    requires Linearizable(Product(m, key), ops) && x < |ops|
    ensures Linearizable(m, Group(ops, key, key(ops[x].input)))
  {
    var l :| Linearization(Product(m, key), ops, l);
    var k := key(ops[x].input);
    hide Linearization, GroupIds, KeyLinearization, Linearizable;
    Restrict(m, key, ops, l, k);
    var g := GroupHasIds(ops, key, k);
    WholeToGroup(m, key, ops, k, Group(ops, key, k), g, OnKey(ops, key, l, k));
  }

  lemma {:induction false} LocalUp<K(!new), S, I, O>(m: Model<S, I, O>, key: I -> K, ops: seq<Operation<I, O>>)
    requires forall x :: 0 <= x < |ops| ==> Linearizable(m, Group(ops, key, key(ops[x].input)))
    ensures Linearizable(Product(m, key), ops)
  {
    var lins := CollectKeys(m, key, ops, |ops|);
    hide Linearization, KeyLinearization, Group;
    assert Merging(m, key, ops, lins, []);
    var full := Merge(m, key, ops, lins, []);
  }

  /** Locality: a history over a product is linearizable if and only if the group of every key that occurs is. */
  lemma {:induction false} Local<K(!new), S, I, O>(m: Model<S, I, O>, key: I -> K, ops: seq<Operation<I, O>>)
    ensures Linearizable(Product(m, key), ops) <==>
            forall x :: 0 <= x < |ops| ==> Linearizable(m, Group(ops, key, key(ops[x].input)))
  {
    hide Linearizable, Product, Group;
    if Linearizable(Product(m, key), ops) {
      forall x: nat | x < |ops| ensures Linearizable(m, Group(ops, key, key(ops[x].input))) {
        LocalDown(m, key, ops, x);
      }
    }
    if forall x :: 0 <= x < |ops| ==> Linearizable(m, Group(ops, key, key(ops[x].input))) {
      LocalUp(m, key, ops);
    }
  }
}
