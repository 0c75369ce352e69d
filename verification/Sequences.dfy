/** Sequences without duplicates, sets of ids, and inserting one element, as the sorting loops of the program do. */
module Sequences {

  ghost predicate NoDup<T>(l: seq<T>) {
    forall i, j :: 0 <= i < j < |l| ==> l[i] != l[j]
  }

  ghost predicate InRange(l: seq<nat>, n: nat) {
    forall i :: 0 <= i < |l| ==> l[i] < n
  }

  ghost function Ids(l: seq<nat>): set<nat> { set x | x in l }

  lemma IdsSnoc(l: seq<nat>, x: nat)
    ensures Ids(l + [x]) == Ids(l) + {x}
  {
  }

  ghost function AllIds(n: nat): (r: set<nat>)
    ensures forall x: nat :: x in r <==> x < n
  {
    if n == 0 then {} else AllIds(n - 1) + {n - 1}
  }

  lemma {:induction false} AllIdsSize(n: nat)
    ensures |AllIds(n)| == n
  {
    if n > 0 {
      AllIdsSize(n - 1);
    }
  }

  lemma {:induction false} IdsSize(l: seq<nat>)
    requires NoDup(l)
    ensures |Ids(l)| == |l|
  {
    if l == [] {
      assert Ids(l) == {};
    } else {
      var k := |l| - 1;
      IdsSize(l[..k]);
      assert l == l[..k] + [l[k]];
      assert Ids(l) == Ids(l[..k]) + {l[k]};
    }
  }

  lemma SubsetOfSameSize(a: set<nat>, b: set<nat>)
    requires a <= b && |a| == |b|
    ensures a == b
  {
    assert |b - a| == |b| - |a|;
  }

  /** A duplicate-free list of ids below `n` is no longer than `n`, and covers all ids
      exactly when it has length `n`. */
  lemma CountIds(l: seq<nat>, n: nat)
    requires NoDup(l) && InRange(l, n)
    ensures |l| <= n
    ensures |l| == n <==> Ids(l) == AllIds(n)
  {
    IdsSize(l);
    AllIdsSize(n);
    assert Ids(l) <= AllIds(n);
    assert |AllIds(n) - Ids(l)| == |AllIds(n)| - |Ids(l)|;
    if |l| == n { SubsetOfSameSize(Ids(l), AllIds(n)); }
  }

  function InsertAt<T>(s: seq<T>, e: T, k: nat): seq<T>
    requires k <= |s|
  {
    s[..k] + [e] + s[k..]
  }

  lemma InsertedAt<T>(s: seq<T>, e: T, k: nat)
    requires k <= |s|
    ensures var r := InsertAt(s, e, k);
            && |r| == |s| + 1 && r[k] == e
            && (forall j :: 0 <= j < k ==> r[j] == s[j])
            && (forall j :: k < j < |r| ==> r[j] == s[j - 1])
  {
  }

  lemma InsertedMembers<T>(s: seq<T>, e: T, k: nat)
    requires k <= |s|
    ensures multiset(InsertAt(s, e, k)) == multiset(s) + multiset{e}
    ensures forall x :: x in InsertAt(s, e, k) <==> x in s || x == e
  {
    assert s == s[..k] + s[k..];
    var r := InsertAt(s, e, k);
    assert forall x :: x in r <==> x in multiset(r);
    assert forall x :: x in s <==> x in multiset(s);
  }

  lemma SameMembers<T>(a: seq<T>, b: seq<T>)
    requires multiset(a) == multiset(b)
    ensures |a| == |b| && forall x :: x in a <==> x in b
  {
    assert |a| == |multiset(a)| && |b| == |multiset(b)|;
    assert forall x :: x in a <==> x in multiset(a);
    assert forall x :: x in b <==> x in multiset(b);
  }
}
