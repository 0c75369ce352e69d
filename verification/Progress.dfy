/** Why the search ends, whatever the memo table prunes: the positions of the calls on the
    stack, followed by that of the cursor, only ever move forward in dictionary order. */
module Progress {
  import opened Wrappers
  import opened Sequences
  import opened Powers
  import opened Linearizability
  import opened Search

  /** `path` read as the first digits of a number of `k` digits, each digit one more than the position. */
  function Weight(path: seq<nat>, base: nat, k: nat): nat
    requires |path| <= k
  {
    if path == [] then 0 else (path[0] + 1) * Pow(base, k - 1) + Weight(path[1..], base, k - 1)
  }

  ghost predicate Digits(path: seq<nat>, base: nat) {
    forall i :: 0 <= i < |path| ==> path[i] + 1 < base
  }

  lemma {:induction false} WeightBound(path: seq<nat>, base: nat, k: nat)
    requires |path| <= k && Digits(path, base) && base > 0
    ensures Weight(path, base, k) < Pow(base, k)
  {
    if path == [] {
      PowPositive(base, k);
    } else {
      assert forall i :: 0 <= i < |path[1..]| ==> path[1..][i] == path[i + 1];
      WeightBound(path[1..], base, k - 1);
      PowPositive(base, k - 1);
      var p := Pow(base, k - 1);
      assert (path[0] + 2) * p <= base * p by { Scale(path[0] + 2, base, p); }
    }
  }

  lemma Scale(a: nat, b: nat, c: nat)
    requires a <= b
    ensures a * c <= b * c
  {
  }

  /** `q` follows `p`: it extends `p`, or has the larger position where they first differ. */
  ghost predicate Follows(p: seq<nat>, q: seq<nat>, i: nat) {
    i <= |p| && i < |q| && p[..i] == q[..i] && (i < |p| ==> p[i] < q[i])
  }

  lemma {:induction false} FollowsHeavier(p: seq<nat>, q: seq<nat>, i: nat, base: nat, k: nat)
    requires |p| <= k && |q| <= k && Digits(p, base) && base > 0 && Follows(p, q, i)
    ensures Weight(p, base, k) < Weight(q, base, k)
  {
    if i > 0 {
      assert p[0] == p[..i][0] == q[..i][0] == q[0];
      assert p[1..][..i - 1] == p[..i][1..] == q[..i][1..] == q[1..][..i - 1];
      FollowsHeavier(p[1..], q[1..], i - 1, base, k - 1);
    } else {
      FirstHeavier(p, q, base, k);
    }
  }

  lemma FirstHeavier(p: seq<nat>, q: seq<nat>, base: nat, k: nat)
    requires |p| <= k && |q| <= k && Digits(p, base) && base > 0 && Follows(p, q, 0)
    ensures Weight(p, base, k) < Weight(q, base, k)
  {
    var d := Pow(base, k - 1);
    PowPositive(base, k - 1);
    var first := if p == [] then 0 else p[0] + 1;
    var rest := if p == [] then 0 else Weight(p[1..], base, k - 1);
    if p != [] { WeightBound(p[1..], base, k - 1); }
    hide Pow;
    assert Weight(p, base, k) == first * d + rest;
    Scale(first + 1, q[0] + 1, d);
    assert (first + 1) * d == first * d + d;
  }

  // ---------------------------------------------------------------------------------
  // The path of the search

  /** Calls are at positions below `size`. */
  ghost predicate Positioned<I, O>(ops: seq<Operation<I, O>>, size: nat) {
    forall o :: 0 <= o < |ops| ==> 0 <= ops[o].call < size
  }

  /** Where the calls on the stack are, and the cursor. */
  ghost function Path<I, O>(ops: seq<Operation<I, O>>, size: nat, stack: seq<nat>, cut: nat): seq<nat>
    requires Positioned(ops, size) && InRange(stack, |ops|)
  {
    seq(|stack|, d requires 0 <= d < |stack| => ops[stack[d]].call) + [cut]
  }

  ghost function Code<I, O>(ops: seq<Operation<I, O>>, size: nat, stack: seq<nat>, cut: nat): nat
    requires Positioned(ops, size) && InRange(stack, |ops|) && |stack| <= |ops|
  {
    Weight(Path(ops, size, stack, cut), size + 2, |ops| + 1)
  }

  ghost function CodeLimit<I, O>(ops: seq<Operation<I, O>>, size: nat): nat { Pow(size + 2, |ops| + 1) }

  lemma CodeBound<I, O>(ops: seq<Operation<I, O>>, size: nat, stack: seq<nat>, cut: nat)
    requires Positioned(ops, size) && InRange(stack, |ops|) && |stack| <= |ops| && cut <= size
    ensures Code(ops, size, stack, cut) < CodeLimit(ops, size)
  {
    WeightBound(Path(ops, size, stack, cut), size + 2, |ops| + 1);
  }

  lemma CodeAdvance<I, O>(ops: seq<Operation<I, O>>, size: nat, stack: seq<nat>, cut: nat, cut': nat)
    requires Positioned(ops, size) && InRange(stack, |ops|) && |stack| <= |ops| && cut < cut' <= size
    ensures Code(ops, size, stack, cut) < Code(ops, size, stack, cut')
  {
    FollowsHeavier(Path(ops, size, stack, cut), Path(ops, size, stack, cut'), |stack|, size + 2, |ops| + 1);
  }

  lemma CodePush<I, O>(ops: seq<Operation<I, O>>, size: nat, stack: seq<nat>, id: nat, cut: nat)
    requires Positioned(ops, size) && InRange(stack, |ops|) && id < |ops| && |stack| < |ops|
    ensures InRange(stack + [id], |ops|)
    ensures Code(ops, size, stack, ops[id].call) < Code(ops, size, stack + [id], cut)
  {
    var p, q := Path(ops, size, stack, ops[id].call), Path(ops, size, stack + [id], cut);
    assert p == q[..|p|];
    FollowsHeavier(p, q, |p|, size + 2, |ops| + 1);
  }

  /** What follows the undoing of the last call follows everything that had it on the stack. */
  lemma CodePop<I, O>(ops: seq<Operation<I, O>>, size: nat, stack: seq<nat>, cut: nat, cut': nat)
    requires Positioned(ops, size) && InRange(stack, |ops|) && 0 < |stack| <= |ops| && cut <= size && cut' <= size
    requires ops[stack[|stack| - 1]].call < cut'
    ensures InRange(stack[..|stack| - 1], |ops|)
    ensures Code(ops, size, stack, cut) < Code(ops, size, stack[..|stack| - 1], cut')
  {
    var k := |stack| - 1;
    var p, q := Path(ops, size, stack, cut), Path(ops, size, stack[..k], cut');
    assert p[..k] == q[..k];
    FollowsHeavier(p, q, k, size + 2, |ops| + 1);
  }

  // ---------------------------------------------------------------------------------
  // Sharing of slices

  /** The search has left `l` behind for good. */
  ghost predicate Passed<I, O>(ops: seq<Operation<I, O>>, size: nat, l: seq<nat>, code: nat) {
    Positioned(ops, size) && InRange(l, |ops|) && |l| <= |ops| && Code(ops, size, l, size) < code
  }

  /** Slots share a slice exactly when they record the same ids; all slices were made before `time`, from stacks
      that the search has left behind. */
  ghost predicate SharingOk<I, O>(ops: seq<Operation<I, O>>, size: nat, longest: Longest, code: nat, time: nat) {
    && SlicesOk(longest)
    && forall x :: 0 <= x < |longest| && longest[x].Some? ==>
         longest[x].value.address < time && Passed(ops, size, longest[x].value.ids, code)
  }

  lemma SharingMoves<I, O>(ops: seq<Operation<I, O>>, size: nat, longest: Longest, code: nat, code': nat, time: nat)
    requires SharingOk(ops, size, longest, code, time) && code <= code'
    ensures SharingOk(ops, size, longest, code', time + 1)
  {
    hide Code, Positioned, InRange, SlicesOk;
  }

  /** A stack is recorded at most once, so its slice is new in place and in content. */
  lemma SharingRecord<I, O>(ops: seq<Operation<I, O>>, size: nat, longest: Longest, stack: seq<nat>, cut: nat, code': nat, time: nat)
    requires Positioned(ops, size) && InRange(stack, |ops|) && |stack| <= |ops| && cut <= size
    requires SharingOk(ops, size, longest, Code(ops, size, stack, cut), time)
    requires Code(ops, size, stack, size) < code'
    ensures SharingOk(ops, size, Record(longest, stack, time), code', time + 1)
  {
    if cut < size { CodeAdvance(ops, size, stack, cut, size); }
    hide Code, Positioned, InRange;
    var r := Record(longest, stack, time);
    forall x | 0 <= x < |r| && r[x].Some?
      ensures r[x].value.address < time + 1 && Passed(ops, size, r[x].value.ids, code')
    {
      if r[x] == longest[x] { assert Passed(ops, size, longest[x].value.ids, Code(ops, size, stack, cut)); }
    }
    forall x | 0 <= x < |longest| && longest[x].Some?
      ensures longest[x].value.address < time && longest[x].value.ids != stack
    {
      assert Passed(ops, size, longest[x].value.ids, Code(ops, size, stack, cut));
    }
  }
}
