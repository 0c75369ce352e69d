/** The reasoning behind the memoised backtracking search, free of heap and loops: what
    holds of the stack of linearized operations, the memo table and the recorded partial
    linearizations at every turn, and what follows when the search gives up. */
module Search {
  import opened Wrappers
  import opened Sequences
  import opened Linearizability

  /** A configuration of the search: which operations are linearized, and the model state. */
  type Config<+S> = (set<nat>, S)

  /** A list of ids on the heap: where it is, and what it holds. */
  datatype Slice = Slice(address: nat, ids: seq<nat>)

  /** Per operation, the longest partial linearization found so far; operations may share a slice. */
  type Longest = seq<Option<Slice>>

  /** Call and return times never coincide. */
  ghost predicate Timeline<I, O>(ops: seq<Operation<I, O>>) {
    forall o, p :: 0 <= o < |ops| && 0 <= p < |ops| ==> ops[o].call != ops[p].ret
  }

  /** The memo table would prune the configuration `(b, s)`. */
  ghost predicate Pruned<S(!new), I, O>(m: Model<S, I, O>, cache: set<Config<S>>, b: set<nat>, s: S) {
    exists t :: (b, t) in cache && m.equal(s, t)
  }

  /** The search has visited `(b, s)` or would prune it. The model's equality need not be reflexive. */
  ghost predicate Covered<S(!new), I, O>(m: Model<S, I, O>, cache: set<Config<S>>, b: set<nat>, s: S) {
    (b, s) in cache || Pruned(m, cache, b, s)
  }

  /** Every acceptable next operation of `(b, s)` invoked before `cut` leads to a covered configuration. */
  ghost predicate ClosedBefore<S(!new), I, O>(m: Model<S, I, O>, ops: seq<Operation<I, O>>,
                                              cache: set<Config<S>>, b: set<nat>, s: S, cut: int) {
    forall o: nat {:trigger Enabled(ops, b, o)} ::
      Enabled(ops, b, o) && ops[o].call < cut && Apply(m, ops, s, o).Some? ==>
        Covered(m, cache, b + {o}, Apply(m, ops, s, o).value)
  }

  ghost predicate Closed<S(!new), I, O>(m: Model<S, I, O>, ops: seq<Operation<I, O>>,
                                        cache: set<Config<S>>, b: set<nat>, s: S) {
    forall o: nat {:trigger Enabled(ops, b, o)} ::
      Enabled(ops, b, o) && Apply(m, ops, s, o).Some? ==>
        Covered(m, cache, b + {o}, Apply(m, ops, s, o).value)
  }

  /** Every operation in `b` has a recorded partial linearization at least as long as `b` is big. */
  ghost predicate Recorded(longest: Longest, b: set<nat>) {
    forall x :: x in b ==> x < |longest| && longest[x].Some? && |longest[x].value.ids| >= |b|
  }

  /** A configuration the search has finished with. */
  ghost predicate Exhausted<S(!new), I, O>(m: Model<S, I, O>, ops: seq<Operation<I, O>>, cache: set<Config<S>>,
                                           longest: Longest, partial: bool, c: Config<S>) {
    && c.0 != AllIds(|ops|)
    && Closed(m, ops, cache, c.0, c.1)
    && (partial ==> Recorded(longest, c.0))
  }

  ghost function At<S, I, O>(m: Model<S, I, O>, ops: seq<Operation<I, O>>, stack: seq<nat>, d: nat): Config<S>
    requires d <= |stack|
    requires StateAfter(m, ops, stack[..d]).Some?
  {
    (Ids(stack[..d]), StateAfter(m, ops, stack[..d]).value)
  }

  ghost predicate Replays<S, I, O>(m: Model<S, I, O>, ops: seq<Operation<I, O>>, stack: seq<nat>) {
    forall d :: 0 <= d <= |stack| ==> StateAfter(m, ops, stack[..d]).Some?
  }

  ghost predicate OnStack<S, I, O>(m: Model<S, I, O>, ops: seq<Operation<I, O>>, stack: seq<nat>, c: Config<S>)
    requires Replays(m, ops, stack)
  {
    exists d :: 0 < d <= |stack| && At(m, ops, stack, d) == c
  }

  /** Each recorded entry is a partial linearization that contains its operation. */
  ghost predicate LongestValid<S, I, O>(m: Model<S, I, O>, ops: seq<Operation<I, O>>, longest: Longest) {
    && |longest| == |ops|
    && forall x :: 0 <= x < |longest| && longest[x].Some? ==>
         PartialLinearization(m, ops, longest[x].value.ids) && x in longest[x].value.ids
  }

  /** The configurations of the stack are memoised. */
  ghost predicate StackCached<S(!new), I, O>(m: Model<S, I, O>, ops: seq<Operation<I, O>>, stack: seq<nat>, cache: set<Config<S>>)
    requires Replays(m, ops, stack)
  {
    forall d :: 0 < d <= |stack| ==> At(m, ops, stack, d) in cache
  }

  /** Below the top, everything before the operation that was chosen has been tried. */
  ghost predicate ChosenInOrder<S(!new), I, O>(m: Model<S, I, O>, ops: seq<Operation<I, O>>, stack: seq<nat>, cache: set<Config<S>>)
    requires Replays(m, ops, stack) && InRange(stack, |ops|)
  {
    forall d :: 0 <= d < |stack| ==> ClosedAt(m, ops, cache, At(m, ops, stack, d), ops[stack[d]].call)
  }

  ghost predicate ClosedAt<S(!new), I, O>(m: Model<S, I, O>, ops: seq<Operation<I, O>>, cache: set<Config<S>>, c: Config<S>, cut: int) {
    ClosedBefore(m, ops, cache, c.0, c.1, cut)
  }

  ghost predicate StackClosed<S(!new), I, O>(m: Model<S, I, O>, ops: seq<Operation<I, O>>, stack: seq<nat>,
                                             cache: set<Config<S>>, cut: int)
    requires Replays(m, ops, stack) && InRange(stack, |ops|)
  {
    && StackCached(m, ops, stack, cache)
    && ChosenInOrder(m, ops, stack, cache)
    && ClosedAt(m, ops, cache, At(m, ops, stack, |stack|), cut)
  }

  ghost predicate CacheOk<S(!new), I, O>(m: Model<S, I, O>, ops: seq<Operation<I, O>>, stack: seq<nat>,
                                         cache: set<Config<S>>, longest: Longest, partial: bool)
    requires Replays(m, ops, stack)
  {
    forall c :: c in cache ==> OnStack(m, ops, stack, c) || Exhausted(m, ops, cache, longest, partial, c)
  }

  /** The invariant of the search. `cut` is the time of the entry under the cursor: no
      operation still unlinearized returned before it, and all unlinearized operations
      invoked before it have been tried. */
  ghost predicate Inv<S(!new), I, O>(m: Model<S, I, O>, ops: seq<Operation<I, O>>, stack: seq<nat>,
                                     cache: set<Config<S>>, longest: Longest, partial: bool, cut: int) {
    && PartialLinearization(m, ops, stack)
    && Replays(m, ops, stack)
    && LongestValid(m, ops, longest)
    && CacheOk(m, ops, stack, cache, longest, partial)
    && StackClosed(m, ops, stack, cache, cut)
    && (forall p: nat :: p < |ops| && p !in stack ==> ops[p].ret >= cut)
  }

  lemma ReplaysPartial<S, I, O>(m: Model<S, I, O>, ops: seq<Operation<I, O>>, l: seq<nat>)
    requires PartialLinearization(m, ops, l)
    ensures Replays(m, ops, l)
  {
    forall d | 0 <= d <= |l| ensures StateAfter(m, ops, l[..d]).Some? {
      PartialPrefix(m, ops, l, d);
    }
  }

  lemma InvInitially<S(!new), I, O>(m: Model<S, I, O>, ops: seq<Operation<I, O>>,
                                    longest: Longest, partial: bool, cut: int)
    requires |longest| == |ops| && forall x :: 0 <= x < |longest| ==> longest[x] == None
    requires forall p: nat :: p < |ops| ==> ops[p].ret >= cut && ops[p].call >= cut
    ensures Inv(m, ops, [], {}, longest, partial, cut)
  {
  }

  /** Moving the cursor past a call: the operation under it is already covered or refused by the model. */
  lemma InvAdvance<S(!new), I, O>(m: Model<S, I, O>, ops: seq<Operation<I, O>>, stack: seq<nat>, cache: set<Config<S>>,
                                  longest: Longest, partial: bool, cut: int, cut': int, id: nat)
    requires Inv(m, ops, stack, cache, longest, partial, cut)
    requires id < |ops| && ops[id].call == cut
    requires var s := StateAfter(m, ops, stack).value;
             Apply(m, ops, s, id).Some? ==> Covered(m, cache, Ids(stack) + {id}, Apply(m, ops, s, id).value)
    // nothing unlinearized lies strictly between the old and the new cursor
    requires forall p: nat :: p < |ops| && p !in stack ==> ops[p].ret >= cut'
    requires forall p: nat :: p < |ops| && p !in stack && p != id ==> ops[p].call <= cut || ops[p].call >= cut'
    requires forall p: nat :: p < |ops| && p != id ==> ops[p].call != cut
    ensures Inv(m, ops, stack, cache, longest, partial, cut')
  {
    assert stack[..|stack|] == stack;
  }

  lemma CoveredMonotone<S(!new), I, O>(m: Model<S, I, O>, ops: seq<Operation<I, O>>, cache: set<Config<S>>,
                                       cache': set<Config<S>>, b: set<nat>, s: S, cut: int)
    requires cache <= cache'
    ensures ClosedBefore(m, ops, cache, b, s, cut) ==> ClosedBefore(m, ops, cache', b, s, cut)
    ensures Closed(m, ops, cache, b, s) ==> Closed(m, ops, cache', b, s)
  {
  }

  /** The configurations of a stack are those of the longer stack, and the new one on top. */
  lemma AtPush<S, I, O>(m: Model<S, I, O>, ops: seq<Operation<I, O>>, stack: seq<nat>, id: nat)
    requires Replays(m, ops, stack) && StateAfter(m, ops, stack + [id]).Some?
    ensures Replays(m, ops, stack + [id])
    ensures forall d :: 0 <= d <= |stack| ==> At(m, ops, stack + [id], d) == At(m, ops, stack, d)
    ensures At(m, ops, stack + [id], |stack| + 1) == (Ids(stack) + {id}, StateAfter(m, ops, stack + [id]).value)
  {
    var st := stack + [id];
    assert forall d :: 0 <= d <= |stack| ==> st[..d] == stack[..d];
    assert st[..|st|] == st;
    IdsSnoc(stack, id);
  }

  lemma CacheOkPush<S(!new), I, O>(m: Model<S, I, O>, ops: seq<Operation<I, O>>, stack: seq<nat>, cache: set<Config<S>>,
                                   longest: Longest, partial: bool, id: nat)
    requires Replays(m, ops, stack) && StateAfter(m, ops, stack + [id]).Some? && Replays(m, ops, stack + [id])
    requires CacheOk(m, ops, stack, cache, longest, partial)
    ensures CacheOk(m, ops, stack + [id], cache + {At(m, ops, stack + [id], |stack| + 1)}, longest, partial)
  {
    var st := stack + [id];
    var c' := At(m, ops, st, |st|);
    var cache' := cache + {c'};
    AtPush(m, ops, stack, id);
    forall c | c in cache' ensures OnStack(m, ops, st, c) || Exhausted(m, ops, cache', longest, partial, c) {
      if c != c' {
        if OnStack(m, ops, stack, c) {
          var d :| 0 < d <= |stack| && At(m, ops, stack, d) == c;
          assert At(m, ops, st, d) == c;
        } else {
          CoveredMonotone(m, ops, cache, cache', c.0, c.1, 0);
        }
      }
    }
  }

  lemma ChosenPush<S(!new), I, O>(m: Model<S, I, O>, ops: seq<Operation<I, O>>, stack: seq<nat>, cache: set<Config<S>>,
                                  cache': set<Config<S>>, id: nat)
    requires Replays(m, ops, stack) && StateAfter(m, ops, stack + [id]).Some? && Replays(m, ops, stack + [id])
    requires InRange(stack, |ops|) && id < |ops| && InRange(stack + [id], |ops|) && cache <= cache'
    requires StackClosed(m, ops, stack, cache, ops[id].call)
    ensures ChosenInOrder(m, ops, stack + [id], cache')
  {
    var st := stack + [id];
    AtPush(m, ops, stack, id);
    hide StateAfter, Replays;
    forall d | 0 <= d < |st| ensures ClosedAt(m, ops, cache', At(m, ops, st, d), ops[st[d]].call) {
      var c := At(m, ops, stack, d);
      assert ClosedAt(m, ops, cache, c, ops[st[d]].call);
      CoveredMonotone(m, ops, cache, cache', c.0, c.1, ops[st[d]].call);
    }
  }

  lemma CachedPush<S(!new), I, O>(m: Model<S, I, O>, ops: seq<Operation<I, O>>, stack: seq<nat>, cache: set<Config<S>>, id: nat)
    requires Replays(m, ops, stack) && StateAfter(m, ops, stack + [id]).Some? && Replays(m, ops, stack + [id])
    requires StackCached(m, ops, stack, cache)
    ensures StackCached(m, ops, stack + [id], cache + {At(m, ops, stack + [id], |stack| + 1)})
  {
    var st := stack + [id];
    AtPush(m, ops, stack, id);
    hide StateAfter, Ids, Replays;
    forall d | 0 < d <= |stack| ensures At(m, ops, st, d) in cache {
      assert At(m, ops, st, d) == At(m, ops, stack, d);
    }
  }

  lemma TopPush<S(!new), I, O>(m: Model<S, I, O>, ops: seq<Operation<I, O>>, stack: seq<nat>, cache: set<Config<S>>, cut': int, id: nat)
    requires Replays(m, ops, stack) && StateAfter(m, ops, stack + [id]).Some? && Replays(m, ops, stack + [id])
    requires forall o: nat :: o < |ops| && o !in stack && o != id ==> ops[o].call >= cut'
    ensures ClosedAt(m, ops, cache, At(m, ops, stack + [id], |stack| + 1), cut')
  {
    AtPush(m, ops, stack, id);
    NothingBefore(m, ops, cache, Ids(stack) + {id}, StateAfter(m, ops, stack + [id]).value, cut');
  }

  lemma StackClosedPush<S(!new), I, O>(m: Model<S, I, O>, ops: seq<Operation<I, O>>, stack: seq<nat>, cache: set<Config<S>>,
                                       cut': int, id: nat)
    requires Replays(m, ops, stack) && StateAfter(m, ops, stack + [id]).Some? && Replays(m, ops, stack + [id])
    requires InRange(stack, |ops|) && id < |ops| && InRange(stack + [id], |ops|)
    requires StackClosed(m, ops, stack, cache, ops[id].call)
    requires forall o: nat :: o < |ops| && o !in stack && o != id ==> ops[o].call >= cut'
    ensures StackClosed(m, ops, stack + [id], cache + {At(m, ops, stack + [id], |stack| + 1)}, cut')
  {
    var cache' := cache + {At(m, ops, stack + [id], |stack| + 1)};
    hide StateAfter, Replays, Ids, ClosedBefore, ChosenInOrder, StackCached, InRange, ClosedAt;
    TopPush(m, ops, stack, cache', cut', id);
    ChosenPush(m, ops, stack, cache, cache', id);
    CachedPush(m, ops, stack, cache, id);
  }

  lemma NothingBefore<S(!new), I, O>(m: Model<S, I, O>, ops: seq<Operation<I, O>>, cache: set<Config<S>>, b: set<nat>, s: S, cut: int)
    requires forall o: nat :: o < |ops| && o !in b ==> ops[o].call >= cut
    ensures ClosedBefore(m, ops, cache, b, s, cut)
  {
  }

  /** Linearizing the enabled call under the cursor and restarting from the front of what is left. */
  lemma InvPush<S(!new), I, O>(m: Model<S, I, O>, ops: seq<Operation<I, O>>, stack: seq<nat>, cache: set<Config<S>>,
                               longest: Longest, partial: bool, cut: int, cut': int, id: nat, s': S)
    requires Inv(m, ops, stack, cache, longest, partial, cut)
    requires id < |ops| && id !in stack && ops[id].call == cut
    requires Apply(m, ops, StateAfter(m, ops, stack).value, id) == Some(s')
    requires forall p: nat :: p < |ops| && p !in stack && p != id ==> ops[p].ret >= cut' && ops[p].call >= cut'
    ensures Inv(m, ops, stack + [id], cache + {(Ids(stack) + {id}, s')}, longest, partial, cut')
    ensures StateAfter(m, ops, stack + [id]) == Some(s')
    ensures Ids(stack + [id]) == Ids(stack) + {id}
  {
    assert Enabled(ops, Ids(stack), id);
    PartialExtend(m, ops, stack, id);
    AtPush(m, ops, stack, id);
    CacheOkPush(m, ops, stack, cache, longest, partial, id);
    StackClosedPush(m, ops, stack, cache, cut', id);
  }

  /** At a return entry every enabled operation was invoked before the cursor, hence tried. */
  lemma ClosedAtReturn<S(!new), I, O>(m: Model<S, I, O>, ops: seq<Operation<I, O>>,
                                      cache: set<Config<S>>, b: set<nat>, s: S, p: nat)
    requires Timeline(ops)
    requires p < |ops| && p !in b
    requires ClosedBefore(m, ops, cache, b, s, ops[p].ret)
    ensures Closed(m, ops, cache, b, s)
  {
    forall o: nat | Enabled(ops, b, o) ensures ops[o].call < ops[p].ret {
      assert !Precedes(ops, p, o);
    }
  }

  /** The bookkeeping of partial answers before backtracking: a new slice with `stack` replaces shorter records
      of its members. */
  ghost function Record(longest: Longest, stack: seq<nat>, address: nat): (r: Longest)
  {
    seq(|longest|, x requires 0 <= x < |longest| =>
      if x in stack && (longest[x].None? || |stack| > |longest[x].value.ids|) then Some(Slice(address, stack)) else longest[x])
  }

  ghost function Updated(partial: bool, longest: Longest, stack: seq<nat>, address: nat): Longest {
    if partial then Record(longest, stack, address) else longest
  }

  lemma RecordKeeps<S, I, O>(m: Model<S, I, O>, ops: seq<Operation<I, O>>, longest: Longest,
                               stack: seq<nat>, address: nat)
    requires LongestValid(m, ops, longest) && PartialLinearization(m, ops, stack)
    ensures LongestValid(m, ops, Record(longest, stack, address))
    ensures Recorded(Record(longest, stack, address), Ids(stack))
    ensures forall b :: Recorded(longest, b) ==> Recorded(Record(longest, stack, address), b)
  {
    IdsSize(stack);
  }

  /** Dropping the top of the stack leaves the configurations below it in place. */
  lemma AtPrefix<S, I, O>(m: Model<S, I, O>, ops: seq<Operation<I, O>>, stack: seq<nat>, k: nat, d: nat)
    requires Replays(m, ops, stack) && d <= k <= |stack|
    ensures stack[..k][..d] == stack[..d]
    ensures StateAfter(m, ops, stack[..k][..d]).Some?
    ensures At(m, ops, stack[..k], d) == At(m, ops, stack, d)
  {
    assert stack[..k][..d] == stack[..d];
  }

  /** After backtracking, the popped configuration counts as exhausted. */
  lemma CacheOkPop<S(!new), I, O>(m: Model<S, I, O>, ops: seq<Operation<I, O>>, stack: seq<nat>, cache: set<Config<S>>,
                                  longest: Longest, longest': Longest, partial: bool)
    requires stack != []
    requires Replays(m, ops, stack) && Replays(m, ops, stack[..|stack| - 1])
    requires CacheOk(m, ops, stack, cache, longest, partial)
    requires Exhausted(m, ops, cache, longest', partial, At(m, ops, stack, |stack|))
    requires partial ==> forall b :: Recorded(longest, b) ==> Recorded(longest', b)
    ensures CacheOk(m, ops, stack[..|stack| - 1], cache, longest', partial)
  {
    var k := |stack| - 1;
    forall c | c in cache
      ensures OnStack(m, ops, stack[..k], c) || Exhausted(m, ops, cache, longest', partial, c)
    {
      if OnStack(m, ops, stack, c) {
        var d :| 0 < d <= |stack| && At(m, ops, stack, d) == c;
        if d <= k {
          AtPrefix(m, ops, stack, k, d);
        }
      }
    }
  }

  lemma StackClosedPop<S(!new), I, O>(m: Model<S, I, O>, ops: seq<Operation<I, O>>, stack: seq<nat>,
                                      cache: set<Config<S>>, cut: int)
    requires stack != [] && InRange(stack, |ops|)
    requires Replays(m, ops, stack) && Replays(m, ops, stack[..|stack| - 1])
    requires StackClosed(m, ops, stack, cache, cut)
    ensures StackClosed(m, ops, stack[..|stack| - 1], cache, ops[stack[|stack| - 1]].call)
  {
    var k := |stack| - 1;
    forall d | 0 <= d <= k ensures At(m, ops, stack[..k], d) == At(m, ops, stack, d) {
      AtPrefix(m, ops, stack, k, d);
    }
  }

  /** Backtracking at a return entry. */
  lemma InvPop<S(!new), I, O>(m: Model<S, I, O>, ops: seq<Operation<I, O>>, stack: seq<nat>, cache: set<Config<S>>,
                              longest: Longest, partial: bool, p: nat, address: nat)
    requires Timeline(ops) && stack != []
    requires p < |ops| && p !in stack
    requires Inv(m, ops, stack, cache, longest, partial, ops[p].ret)
    ensures Inv(m, ops, stack[..|stack| - 1], cache, Updated(partial, longest, stack, address), partial, ops[stack[|stack| - 1]].call)
  {
    var k := |stack| - 1;
    var longest' := Updated(partial, longest, stack, address);
    TopExhausted(m, ops, stack, cache, longest, partial, p, address);
    PopReturns(m, ops, stack);
    PartialPrefix(m, ops, stack, k);
    ReplaysPartial(m, ops, stack[..k]);
    assert InRange(stack, |ops|);
    hide PartialLinearization, LongestValid, CacheOk, StackClosed, Exhausted, Recorded, Record, InRange, Timeline, Updated, Replays;
    CacheOkPop(m, ops, stack, cache, longest, longest', partial);
    StackClosedPop(m, ops, stack, cache, ops[p].ret);
  }

  /** Nothing left in the list returned before the operation on top was invoked. */
  lemma PopReturns<S, I, O>(m: Model<S, I, O>, ops: seq<Operation<I, O>>, stack: seq<nat>)
    requires PartialLinearization(m, ops, stack) && stack != []
    ensures forall p: nat :: p < |ops| && p !in stack[..|stack| - 1] ==> ops[p].ret >= ops[stack[|stack| - 1]].call
  {
    assert PredecessorsFirst(ops, stack, |stack| - 1);
  }

  /** At a return entry the configuration on top of the stack is exhausted, once its members are recorded. */
  lemma TopExhausted<S(!new), I, O>(m: Model<S, I, O>, ops: seq<Operation<I, O>>, stack: seq<nat>, cache: set<Config<S>>,
                                    longest: Longest, partial: bool, p: nat, address: nat)
    requires Timeline(ops) && stack != [] && p < |ops| && p !in stack
    requires Inv(m, ops, stack, cache, longest, partial, ops[p].ret)
    ensures var longest' := Updated(partial, longest, stack, address);
            && LongestValid(m, ops, longest')
            && Exhausted(m, ops, cache, longest', partial, At(m, ops, stack, |stack|))
            && (partial ==> forall b :: Recorded(longest, b) ==> Recorded(longest', b))
  {
    var top := At(m, ops, stack, |stack|);
    assert stack[..|stack|] == stack;
    RecordKeeps(m, ops, longest, stack, address);
    ClosedAtReturn(m, ops, cache, top.0, top.1, p);
    assert p in AllIds(|ops|) && p !in top.0;
  }

  /** The operation on top leads from the state below it to the current one. */
  lemma TopStep<S, I, O>(m: Model<S, I, O>, ops: seq<Operation<I, O>>, stack: seq<nat>)
    requires PartialLinearization(m, ops, stack) && stack != []
    ensures var k := |stack| - 1;
            && StateAfter(m, ops, stack[..k]).Some?
            && Apply(m, ops, StateAfter(m, ops, stack[..k]).value, stack[k]) == StateAfter(m, ops, stack)
  {
  }

  lemma CachedIsCovered<S(!new), I, O>(m: Model<S, I, O>, cache: set<Config<S>>, b: set<nat>, s: S)
    requires (b, s) in cache
    ensures Covered(m, cache, b, s)
  {
  }

  /** The configuration on top of the stack is in the memo table, so its operation need not be tried again. */
  lemma TopCovered<S(!new), I, O>(m: Model<S, I, O>, ops: seq<Operation<I, O>>, stack: seq<nat>,
                                  cache: set<Config<S>>, cut: int, s: S)
    requires stack != [] && InRange(stack, |ops|) && Replays(m, ops, stack)
    requires StackClosed(m, ops, stack, cache, cut)
    requires StateAfter(m, ops, stack) == Some(s)
    ensures Covered(m, cache, Ids(stack[..|stack| - 1]) + {stack[|stack| - 1]}, s)
  {
    var k, top := |stack| - 1, At(m, ops, stack, |stack|);
    assert top in cache;
    assert stack[..|stack|] == stack == stack[..k] + [stack[k]];
    assert top == (Ids(stack), s);
    IdsSnoc(stack[..k], stack[k]);
    hide *;
    CachedIsCovered(m, cache, Ids(stack[..k]) + {stack[k]}, s);
  }

  /** What an exhausted search has established. */
  ghost predicate Complete<S(!new), I, O>(m: Model<S, I, O>, ops: seq<Operation<I, O>>, cache: set<Config<S>>,
                                          longest: Longest, partial: bool) {
    && Closed(m, ops, cache, {}, m.init)
    && forall c :: c in cache ==> Exhausted(m, ops, cache, longest, partial, c)
  }

  lemma InvGivesUp<S(!new), I, O>(m: Model<S, I, O>, ops: seq<Operation<I, O>>, cache: set<Config<S>>,
                                  longest: Longest, partial: bool, p: nat)
    requires Timeline(ops)
    requires p < |ops|
    requires Inv(m, ops, [], cache, longest, partial, ops[p].ret)
    ensures Complete(m, ops, cache, longest, partial)
  {
    assert Ids([]) == {};
    assert At(m, ops, [], 0) == ({}, m.init);
    ClosedAtReturn(m, ops, cache, {}, m.init, p);
  }

  /** Memoisation loses nothing: the configuration of every non-empty partial linearization is covered. */
  lemma {:induction false} EveryPartialCovered<S(!new), I(!new), O(!new)>(
    m: Model<S, I, O>, ops: seq<Operation<I, O>>, cache: set<Config<S>>,
    longest: Longest, partial: bool, l: seq<nat>)
    requires EqualitySound(m)
    requires Complete(m, ops, cache, longest, partial)
    requires PartialLinearization(m, ops, l) && l != []
    ensures Pruned(m, cache, Ids(l), StateAfter(m, ops, l).value)
  {
    var k := |l| - 1;
    var p, o := l[..k], l[k];
    assert l == p + [o];
    PartialPrefix(m, ops, l, k);
    PartialExtend(m, ops, p, o);
    var s := StateAfter(m, ops, p).value;
    if p == [] {
      assert Ids(p) == {};
      assert Enabled(ops, {}, o);
      CoveredIsPruned(m, cache, {} + {o}, Apply(m, ops, m.init, o).value);
    } else {
      EveryPartialCovered(m, ops, cache, longest, partial, p);
      var t :| (Ids(p), t) in cache && m.equal(s, t);
      assert Exhausted(m, ops, cache, longest, partial, (Ids(p), t));
      assert Enabled(ops, Ids(p), o);
      SimulationStep(m, ops, s, t, o);
      CoveredIsPruned(m, cache, Ids(p) + {o}, Apply(m, ops, t, o).value);
      var u :| (Ids(p) + {o}, u) in cache && m.equal(Apply(m, ops, t, o).value, u);
    }
  }

  lemma CoveredIsPruned<S(!new), I(!new), O(!new)>(m: Model<S, I, O>, cache: set<Config<S>>, b: set<nat>, s: S)
    requires EqualitySound(m) && Covered(m, cache, b, s)
    ensures Pruned(m, cache, b, s)
  {
  }

  lemma SimulationStep<S(!new), I(!new), O(!new)>(m: Model<S, I, O>, ops: seq<Operation<I, O>>, s: S, t: S, o: nat)
    requires EqualitySound(m) && m.equal(s, t)
    requires Apply(m, ops, s, o).Some?
    ensures Apply(m, ops, t, o).Some? && m.equal(Apply(m, ops, s, o).value, Apply(m, ops, t, o).value)
  {
  }

  /** A search that gave up was right to, and its records are the longest there are. */
  lemma CompleteSearch<S(!new), I(!new), O(!new)>(
    m: Model<S, I, O>, ops: seq<Operation<I, O>>, cache: set<Config<S>>,
    longest: Longest, partial: bool, l: seq<nat>)
    requires EqualitySound(m)
    requires |ops| > 0
    requires Complete(m, ops, cache, longest, partial)
    requires PartialLinearization(m, ops, l)
    ensures |l| < |ops|
    ensures partial ==> Recorded(longest, Ids(l)) && |Ids(l)| == |l|
  {
    CountIds(l, |ops|);
    IdsSize(l);
    if l != [] {
      EveryPartialCovered(m, ops, cache, longest, partial, l);
      var t :| (Ids(l), t) in cache && m.equal(StateAfter(m, ops, l).value, t);
      assert Exhausted(m, ops, cache, longest, partial, (Ids(l), t));
    }
  }

  /** No partial linearization with `x` in it is longer than the one recorded for `x`. */
  ghost predicate Maximal<S, I, O>(m: Model<S, I, O>, ops: seq<Operation<I, O>>, longest: Longest)
    requires |longest| == |ops|
  {
    forall l, x :: PartialLinearization(m, ops, l) && x in l ==>
      x < |ops| && longest[x].Some? && |longest[x].value.ids| >= |l|
  }

  /** Two operations share a slice exactly when their slices hold the same ids. */
  ghost predicate SlicesOk(longest: Longest) {
    forall x, y :: 0 <= x < |longest| && 0 <= y < |longest| && longest[x].Some? && longest[y].Some? ==>
      (longest[x].value.address == longest[y].value.address <==> longest[x].value.ids == longest[y].value.ids)
  }

  /** What one search answers: the verdict `ok` and, per operation, a partial linearization through it.
      A search that was `killed` may answer no without reason, and so may one whose model has an unsound equality,
      but what they recorded is still valid. */
  ghost predicate Outcome<S(!new), I(!new), O(!new)>(m: Model<S, I, O>, ops: seq<Operation<I, O>>, partial: bool, killed: bool,
                                                     ok: bool, longest: Longest) {
    && LongestValid(m, ops, longest) && SlicesOk(longest)
    && (ok ==> Linearizable(m, ops) && !killed)
    && (ok ==> forall x :: 0 <= x < |ops| ==> longest[x].Some? && Linearization(m, ops, longest[x].value.ids))
    && (!ok && !killed && EqualitySound(m) ==> !Linearizable(m, ops) && (partial ==> Maximal(m, ops, longest)))
    && (!ok && !partial ==> forall x :: 0 <= x < |ops| ==> longest[x] == None)
  }

  lemma CompleteOutcome<S(!new), I(!new), O(!new)>(
    m: Model<S, I, O>, ops: seq<Operation<I, O>>, cache: set<Config<S>>, longest: Longest, partial: bool)
    requires EqualitySound(m) && |ops| > 0
    requires LongestValid(m, ops, longest)
    requires Complete(m, ops, cache, longest, partial)
    ensures !Linearizable(m, ops)
    ensures partial ==> Maximal(m, ops, longest)
  {
    forall l | PartialLinearization(m, ops, l)
      ensures |l| < |ops|
      ensures partial ==> forall x :: x in l ==> x < |ops| && longest[x].Some? && |longest[x].value.ids| >= |l|
    {
      CompleteSearch(m, ops, cache, longest, partial, l);
      assert forall x :: x in l ==> x in Ids(l);
    }
    forall l ensures !Linearization(m, ops, l) {
      CompletePartialIsLinearization(m, ops, l);
    }
  }

  lemma SoundOutcome<S, I, O>(m: Model<S, I, O>, ops: seq<Operation<I, O>>, stack: seq<nat>)
    requires PartialLinearization(m, ops, stack)
    requires forall p: nat :: p < |ops| ==> p in stack
    ensures Linearization(m, ops, stack)
  {
    assert AllIds(|ops|) <= Ids(stack) by {
      forall p | p in AllIds(|ops|) ensures p in Ids(stack) {}
    }
    CountIds(stack, |ops|);
    assert Ids(stack) <= AllIds(|ops|);
    CompletePartialIsLinearization(m, ops, stack);
  }

  // ---------------------------------------------------------------------------------
  // Every history has an outcome

  /** A longest partial linearization through `x` among those of at most `k` operations. */
  lemma {:induction false} LongestThrough<S, I, O>(m: Model<S, I, O>, ops: seq<Operation<I, O>>, x: nat, k: nat) returns (best: Option<seq<nat>>)
    ensures best.Some? ==> PartialLinearization(m, ops, best.value) && x in best.value
    ensures forall l :: PartialLinearization(m, ops, l) && x in l && |l| <= k ==> best.Some? && |best.value| >= |l|
  {
    if l :| PartialLinearization(m, ops, l) && x in l && |l| == k {
      best := Some(l);
    } else if k > 0 {
      best := LongestThrough(m, ops, x, k - 1);
    } else {
      best := None;
    }
  }

  /** `best` is a longest partial linearization through `x`, if there is one at all. */
  ghost predicate BestThrough<S, I, O>(m: Model<S, I, O>, ops: seq<Operation<I, O>>, x: nat, best: Option<seq<nat>>) {
    && (best.Some? ==> PartialLinearization(m, ops, best.value) && x in best.value)
    && (forall l :: PartialLinearization(m, ops, l) && x in l ==> best.Some? && |best.value| >= |l|)
  }

  ghost function IdsOf(slot: Option<Slice>): Option<seq<nat>> { if slot.None? then None else Some(slot.value.ids) }

  lemma BestExists<S, I, O>(m: Model<S, I, O>, ops: seq<Operation<I, O>>, x: nat) returns (best: Option<seq<nat>>)
    ensures BestThrough(m, ops, x, best)
  {
    best := LongestThrough(m, ops, x, |ops|);
    forall l | PartialLinearization(m, ops, l) ensures |l| <= |ops| { PartialLength(m, ops, l); }
  }

  /** Longest partial linearizations through the first `k` operations, equal ones in one slice. */
  lemma {:induction false} LongestSlices<S, I, O>(m: Model<S, I, O>, ops: seq<Operation<I, O>>, k: nat) returns (longest: Longest)
    ensures |longest| == k && SlicesOk(longest)
    ensures forall x :: 0 <= x < k && longest[x].Some? ==> longest[x].value.address < k
    ensures forall x :: 0 <= x < k ==> BestThrough(m, ops, x, IdsOf(longest[x]))
  {
    if k == 0 {
      longest := [];
    } else {
      hide BestThrough;
      var before := LongestSlices(m, ops, k - 1);
      var best := BestExists(m, ops, k - 1);
      var slot := if best.None? then None else Some(SliceFor(before, best.value));
      assert IdsOf(slot) == best;
      longest := before + [slot];
      SliceForOk(before, best);
      hide SlicesOk, SliceFor;
    }
  }

  /** The slice that holds `ids` already, or a new one. */
  ghost function SliceFor(longest: Longest, ids: seq<nat>): (slice: Slice)
    ensures slice.ids == ids
  {
    if exists y :: 0 <= y < |longest| && longest[y].Some? && longest[y].value.ids == ids then
      var y :| 0 <= y < |longest| && longest[y].Some? && longest[y].value.ids == ids;
      longest[y].value
    else Slice(|longest|, ids)
  }

  lemma SliceForOk(longest: Longest, ids: Option<seq<nat>>)
    requires SlicesOk(longest) && forall x :: 0 <= x < |longest| && longest[x].Some? ==> longest[x].value.address < |longest|
    ensures SlicesOk(longest + [if ids.None? then None else Some(SliceFor(longest, ids.value))])
    ensures ids.Some? ==> SliceFor(longest, ids.value).address <= |longest|
  {
  }

  lemma PartialLength<S, I, O>(m: Model<S, I, O>, ops: seq<Operation<I, O>>, l: seq<nat>)
    requires PartialLinearization(m, ops, l)
    ensures |l| <= |ops| && forall x :: x in l ==> x < |ops|
  {
    CountIds(l, |ops|);
  }

  /** So an unkilled search always has an answer to give. */
  lemma OutcomeExists<S(!new), I(!new), O(!new)>(m: Model<S, I, O>, ops: seq<Operation<I, O>>, partial: bool)
    returns (ok: bool, longest: Longest)
    ensures Outcome(m, ops, partial, false, ok, longest)
  {
    ok := Linearizable(m, ops);
    if ok {
      var l :| Linearization(m, ops, l);
      CompletePartialIsLinearization(m, ops, l);
      CountIds(l, |ops|);
      longest := seq(|ops|, _ => Some(Slice(0, l)));
      forall x: nat | x < |ops| ensures x in l { assert x in Ids(l); }
    } else if partial {
      longest := LongestSlices(m, ops, |ops|);
      forall l, x | PartialLinearization(m, ops, l) && x in l
        ensures x < |ops| && longest[x].Some? && |longest[x].value.ids| >= |l|
      {
        PartialLength(m, ops, l);
        assert BestThrough(m, ops, x, IdsOf(longest[x]));
      }
      forall x | 0 <= x < |ops| && longest[x].Some?
        ensures PartialLinearization(m, ops, longest[x].value.ids) && x in longest[x].value.ids
      {
        assert BestThrough(m, ops, x, IdsOf(longest[x]));
      }
    } else {
      longest := seq(|ops|, _ => None);
    }
  }
}
