/** The data behind the visualization of one partition: operation intervals, and every
    reported partial linearization replayed through the model. */
module Visualization {
  import opened Wrappers
  import opened Sequences
  import opened Linearizability
  import opened Entries

  /** A description is None where the program's description function panics. */
  datatype HistoryElement = HistoryElement(clientId: int, start: int, end: int, description: Option<string>)

  datatype LinearizationStep = LinearizationStep(index: nat, stateDescription: string)

  // ---------------------------------------------------------------------------------
  // Inputs, outputs and intervals by id

  /** The maps filled so far hold exactly the entries seen so far. */
  ghost predicate ValuesOk<I, O>(h: seq<Entry<I, O>>, i: nat, callValue: map<int, I>, returnValue: map<int, O>)
    requires i <= |h|
  {
    && (forall j :: 0 <= j < i && h[j].Call? ==> h[j].id in callValue && callValue[h[j].id] == h[j].input)
    && (forall j :: 0 <= j < i && h[j].Return? ==> h[j].id in returnValue && returnValue[h[j].id] == h[j].output)
    && (forall id :: id in callValue ==> exists j: nat :: j < i && IsCall(h, id, j))
  }

  /** The intervals filled so far. */
  ghost predicate IntervalsOk<I, O>(h: seq<Entry<I, O>>, i: nat, describe: (Option<I>, O) -> Option<string>, history: seq<HistoryElement>)
    requires WellFormed(h) && i <= |h| && |history| == |h| / 2
  {
    && (forall j :: 0 <= j < i && h[j].Call? ==>
          history[h[j].id].clientId == h[j].clientId && history[h[j].id].start == h[j].time)
    && (forall j :: 0 <= j < i && h[j].Return? ==>
          && history[h[j].id].end == h[j].time
          && history[h[j].id].description == describe(InputBefore(h, h[j].id, j), h[j].output))
  }

  /** The input of operation `id` if its call comes before position `j`. */
  ghost function InputBefore<I, O>(h: seq<Entry<I, O>>, id: nat, j: int): Option<I>
    requires WellFormed(h) && id < |h| / 2
  {
    if CallAt(h, id) < j then Some(h[CallAt(h, id)].input) else None
  }

  /** What is known of operation `id`: its interval with the times of its two entries, and its values; of one that
      returns before it is called, only the output is known by then. */
  ghost predicate Described<I, O>(h: seq<Entry<I, O>>, describe: (Option<I>, O) -> Option<string>, id: nat, element: HistoryElement)
    requires WellFormed(h) && id < |h| / 2
  {
    var op := OpsOf(h)[id];
    element == HistoryElement(op.clientId, h[op.call].time, h[op.ret].time,
                               describe(if op.call < op.ret then Some(op.input) else None, op.output))
  }

  ghost predicate ValuesById<I, O>(ops: seq<Operation<I, O>>, callValue: map<int, I>, returnValue: map<int, O>) {
    forall id :: 0 <= id < |ops| ==>
      && id in callValue && callValue[id] == ops[id].input
      && id in returnValue && returnValue[id] == ops[id].output
  }

  lemma AllCollected<I, O>(h: seq<Entry<I, O>>, describe: (Option<I>, O) -> Option<string>, callValue: map<int, I>, returnValue: map<int, O>,
                           history: seq<HistoryElement>)
    requires WellFormed(h) && |history| == |h| / 2
    requires ValuesOk(h, |h|, callValue, returnValue) && IntervalsOk(h, |h|, describe, history)
    ensures ValuesById(OpsOf(h), callValue, returnValue)
    ensures forall id :: 0 <= id < |h| / 2 ==> Described(h, describe, id, history[id])
  {
    forall id: nat | id < |h| / 2
      ensures Described(h, describe, id, history[id])
      ensures id in callValue && callValue[id] == OpsOf(h)[id].input
      ensures id in returnValue && returnValue[id] == OpsOf(h)[id].output
    {
      var c, r := CallAt(h, id), ReturnAt(h, id);
      assert h[c].Call? && h[r].Return?;
    }
  }

  lemma ValuesNext<I, O>(h: seq<Entry<I, O>>, i: nat, callValue: map<int, I>, returnValue: map<int, O>)
    requires WellFormed(h) && i < |h| && ValuesOk(h, i, callValue, returnValue)
    ensures 0 <= h[i].id < |h| / 2
    ensures if h[i].Call? then ValuesOk(h, i + 1, callValue[h[i].id := h[i].input], returnValue)
            else ValuesOk(h, i + 1, callValue, returnValue[h[i].id := h[i].output])
    ensures h[i].Return? ==>
              InputBefore(h, h[i].id, i) == if h[i].id in callValue then Some(callValue[h[i].id]) else None
  {
    var c := CallAt(h, h[i].id);
    assert IsCall(h, h[i].id, c);
    assert forall j: nat :: IsCall(h, h[i].id, j) ==> j == c;
    assert forall j :: 0 <= j < i && h[j].id == h[i].id ==> h[j].Call? != h[i].Call?;
  }

  lemma IntervalsCall<I, O>(h: seq<Entry<I, O>>, i: nat, describe: (Option<I>, O) -> Option<string>, history: seq<HistoryElement>)
    requires WellFormed(h) && |history| == |h| / 2 && i < |h| && h[i].Call? && IntervalsOk(h, i, describe, history)
    ensures var e := h[i];
            IntervalsOk(h, i + 1, describe, history[e.id := history[e.id].(clientId := e.clientId, start := e.time)])
  {
    assert forall j :: 0 <= j < i && h[j].Call? ==> h[j].id != h[i].id;
    hide InputBefore;
  }

  lemma IntervalsReturn<I, O>(h: seq<Entry<I, O>>, i: nat, describe: (Option<I>, O) -> Option<string>, history: seq<HistoryElement>)
    requires WellFormed(h) && |history| == |h| / 2 && i < |h| && h[i].Return? && IntervalsOk(h, i, describe, history)
    ensures var e := h[i];
            var description := describe(InputBefore(h, e.id, i), e.output);
            IntervalsOk(h, i + 1, describe, history[e.id := history[e.id].(end := e.time, description := description)])
  {
    assert forall j :: 0 <= j < i && h[j].Return? ==> h[j].id != h[i].id;
    hide InputBefore;
  }

  method CollectValues<I, O>(h: seq<Entry<I, O>>, describe: (Option<I>, O) -> Option<string>)
    returns (history: seq<HistoryElement>, callValue: map<int, I>, returnValue: map<int, O>)
    requires WellFormed(h)
    ensures ValuesById(OpsOf(h), callValue, returnValue)
    ensures |history| == |h| / 2 && forall id :: 0 <= id < |h| / 2 ==> Described(h, describe, id, history[id])
  {
    history := seq(|h| / 2, _ => HistoryElement(0, 0, 0, Some("")));
    callValue, returnValue := map[], map[];
    assert ValuesOk(h, 0, callValue, returnValue) && IntervalsOk(h, 0, describe, history);
    hide ValuesOk, IntervalsOk, InputBefore, Described;
    for i := 0 to |h|
      invariant |history| == |h| / 2
      invariant ValuesOk(h, i, callValue, returnValue) && IntervalsOk(h, i, describe, history)
    {
      var elem := h[i];
      ValuesNext(h, i, callValue, returnValue);
      if elem.Call? {
        IntervalsCall(h, i, describe, history);
        history := history[elem.id := history[elem.id].(clientId := elem.clientId, start := elem.time)];
        callValue := callValue[elem.id := elem.input];
      } else {
        IntervalsReturn(h, i, describe, history);
        var input := if elem.id in callValue then Some(callValue[elem.id]) else None;
        history := history[elem.id := history[elem.id].(end := elem.time, description := describe(input, elem.output))];
        returnValue := returnValue[elem.id := elem.output];
      }
    }
    AllCollected(h, describe, callValue, returnValue, history);
  }

  // ---------------------------------------------------------------------------------
  // Longest first

  ghost predicate LongestFirst(ps: seq<seq<nat>>) {
    forall i, j :: 0 <= i < j < |ps| ==> |ps[i]| >= |ps[j]|
  }

  method SortByLength(ps: seq<seq<nat>>) returns (r: seq<seq<nat>>)
    ensures LongestFirst(r) && multiset(r) == multiset(ps)
  {
    r := [];
    for i := 0 to |ps|
      invariant LongestFirst(r) && multiset(r) == multiset(ps[..i])
    {
      var k := |r|;
      while k > 0 && |r[k - 1]| < |ps[i]|
        invariant 0 <= k <= |r|
        invariant forall j :: k <= j < |r| ==> |r[j]| < |ps[i]|
      {
        k := k - 1;
      }
      InsertedByLength(r, ps[i], k);
      InsertedMembers(r, ps[i], k);
      assert ps[..i + 1] == ps[..i] + [ps[i]];
      r := InsertAt(r, ps[i], k);
    }
    assert ps[..|ps|] == ps;
  }

  lemma InsertedByLength(r: seq<seq<nat>>, p: seq<nat>, k: nat)
    requires LongestFirst(r) && k <= |r|
    requires k > 0 ==> |r[k - 1]| >= |p|
    requires k < |r| ==> |r[k]| <= |p|
    ensures LongestFirst(InsertAt(r, p, k))
  {
    InsertedAt(r, p, k);
    hide InsertAt;
  }

  // ---------------------------------------------------------------------------------
  // Replay

  /** `id` occurs in one of the first `i` linearizations or among the first `j` steps of the next. */
  ghost predicate Visited(ps: seq<seq<nat>>, i: nat, j: nat, id: nat) {
    || (exists k :: 0 <= k < i && k < |ps| && id in ps[k])
    || (i < |ps| && j <= |ps[i]| && id in ps[i][..j])
  }

  /** For every visited id, the first linearization it occurs in, which is a longest one, and its length. */
  ghost predicate LargestOk(ps: seq<seq<nat>>, i: nat, j: nat, index: map<nat, nat>, size: map<nat, nat>) {
    && index.Keys == size.Keys
    && (forall id :: id in index <==> Visited(ps, i, j, id))
    && (forall id :: id in index ==> index[id] < |ps| && id in ps[index[id]] && size[id] == |ps[index[id]]|)
    && (forall id, k :: id in index && 0 <= k < |ps| && id in ps[k] ==> |ps[k]| <= size[id])
  }

  lemma LargestStep(ps: seq<seq<nat>>, i: nat, j: nat, index: map<nat, nat>, size: map<nat, nat>)
    requires LongestFirst(ps) && i < |ps| && j < |ps[i]|
    requires LargestOk(ps, i, j, index, size)
    ensures var id := ps[i][j];
            if (if id in size then size[id] else 0) < |ps[i]|
            then LargestOk(ps, i, j + 1, index[id := i], size[id := |ps[i]|])
            else LargestOk(ps, i, j + 1, index, size)
  {
    var id := ps[i][j];
    assert ps[i][..j + 1] == ps[i][..j] + [id];
    forall x ensures Visited(ps, i, j + 1, x) <==> Visited(ps, i, j, x) || x == id {
      assert x in ps[i][..j + 1] <==> x in ps[i][..j] || x == id;
    }
    if id in index {
      assert id in ps[i];
    } else {
      forall k | 0 <= k < |ps| && id in ps[k] ensures |ps[k]| <= |ps[i]| {
        assert k < i ==> Visited(ps, i, j, id);
      }
    }
  }

  lemma LargestNext(ps: seq<seq<nat>>, i: nat, index: map<nat, nat>, size: map<nat, nat>)
    requires i < |ps| && LargestOk(ps, i, |ps[i]|, index, size)
    ensures LargestOk(ps, i + 1, 0, index, size)
  {
    assert ps[i][..|ps[i]|] == ps[i];
    forall id ensures Visited(ps, i + 1, 0, id) <==> Visited(ps, i, |ps[i]|, id) {
      if Visited(ps, i, |ps[i]|, id) && id in ps[i] { assert 0 <= i < i + 1; }
    }
  }

  /** Step `j` of a replayed linearization names its operation and the state after it. */
  ghost predicate ReplayedTo<S, I, O>(m: Model<S, I, O>, ops: seq<Operation<I, O>>, describeState: S -> string,
                                      p: seq<nat>, steps: seq<LinearizationStep>, j: nat)
    requires j <= |p| && j <= |steps|
  {
    forall k :: 0 <= k < j ==> ReplayedStep(m, ops, describeState, p, k, steps[k])
  }

  /** `steps` is the whole linearization `p` replayed. */
  ghost predicate Replayed<S, I, O>(m: Model<S, I, O>, ops: seq<Operation<I, O>>, describeState: S -> string,
                                    p: seq<nat>, steps: seq<LinearizationStep>) {
    |steps| == |p| && ReplayedTo(m, ops, describeState, p, steps, |p|)
  }

  ghost predicate ReplayedStep<S, I, O>(m: Model<S, I, O>, ops: seq<Operation<I, O>>, describeState: S -> string,
                                        p: seq<nat>, k: nat, step: LinearizationStep)
    requires k < |p|
  {
    var s := StateAfter(m, ops, p[..k + 1]);
    s.Some? && step == LinearizationStep(p[k], describeState(s.value))
  }

  lemma ReplayedNext<S, I, O>(m: Model<S, I, O>, ops: seq<Operation<I, O>>, describeState: S -> string,
                              p: seq<nat>, steps: seq<LinearizationStep>, state: S)
    requires |steps| < |p| && ReplayedTo(m, ops, describeState, p, steps, |steps|)
    requires StateAfter(m, ops, p[..|steps| + 1]) == Some(state)
    ensures ReplayedTo(m, ops, describeState, p, steps + [LinearizationStep(p[|steps|], describeState(state))], |steps| + 1)
  {
    var more := steps + [LinearizationStep(p[|steps|], describeState(state))];
    forall k | 0 <= k < |more| ensures ReplayedStep(m, ops, describeState, p, k, more[k]) {
      if k < |steps| { assert more[k] == steps[k]; }
    }
  }

  lemma StepAccepted<S, I, O>(m: Model<S, I, O>, ops: seq<Operation<I, O>>, p: seq<nat>, j: nat, state: S,
                              callValue: map<int, I>, returnValue: map<int, O>)
    requires ValuesById(ops, callValue, returnValue) && PartialLinearization(m, ops, p) && j < |p|
    requires StateAfter(m, ops, p[..j]) == Some(state)
    ensures p[j] in callValue && p[j] in returnValue
    ensures var (ok, s) := m.step(state, callValue[p[j]], returnValue[p[j]]);
            ok && StateAfter(m, ops, p[..j + 1]) == Some(s)
  {
    PartialPrefix(m, ops, p, j + 1);
    assert p[..j + 1][..j] == p[..j];
  }

  /** Replays one partial linearization. The step that the program guards with a panic is always accepted. */
  method Replay<S, I, O>(m: Model<S, I, O>, callValue: map<int, I>, returnValue: map<int, O>, describeState: S -> string,
                         ps: seq<seq<nat>>, i: nat, index: map<nat, nat>, size: map<nat, nat>, ghost ops: seq<Operation<I, O>>)
    returns (steps: seq<LinearizationStep>, index': map<nat, nat>, size': map<nat, nat>)
    requires ValuesById(ops, callValue, returnValue)
    requires LongestFirst(ps) && i < |ps| && PartialLinearization(m, ops, ps[i])
    requires LargestOk(ps, i, 0, index, size)
    ensures Replayed(m, ops, describeState, ps[i], steps)
    ensures LargestOk(ps, i + 1, 0, index', size')
  {
    var partial := ps[i];
    steps, index', size' := [], index, size;
    assert ReplayedTo(m, ops, describeState, partial, steps, 0);
    hide LargestOk, ReplayedTo, PartialLinearization, ValuesById;
    var state := m.init;
    for j := 0 to |partial|
      invariant |steps| == j && ReplayedTo(m, ops, describeState, partial, steps, j)
      invariant StateAfter(m, ops, partial[..j]) == Some(state)
      invariant LargestOk(ps, i, j, index', size')
    {
      var histId := partial[j];
      StepAccepted(m, ops, partial, j, state, callValue, returnValue);
      var (ok, newState) := m.step(state, callValue[histId], returnValue[histId]);
      if !ok {
        assert false;  // panic: valid partial linearization returned non-ok result
      }
      state := newState;
      ReplayedNext(m, ops, describeState, partial, steps, state);
      steps := steps + [LinearizationStep(histId, describeState(state))];
      LargestStep(ps, i, j, index', size');
      if (if histId in size' then size'[histId] else 0) < |partial| {
        size' := size'[histId := |partial|];
        index' := index'[histId := i];
      }
    }
    LargestNext(ps, i, index', size');
  }

  datatype PartitionData = PartitionData(history: seq<HistoryElement>, partialLinearizations: seq<seq<LinearizationStep>>,
                                         largest: map<nat, nat>)

  /** The data of one partition: its operations, every partial linearization replayed, longest first, and for each
      operation that occurs in any of them the place of a longest one that contains it. */
  ghost predicate Shown<S, I, O>(m: Model<S, I, O>, h: seq<Entry<I, O>>, partials: seq<seq<nat>>,
                                 describeOperation: (Option<I>, O) -> Option<string>, describeState: S -> string, data: PartitionData)
    requires WellFormed(h)
  {
    && |data.history| == |h| / 2 && (forall id :: 0 <= id < |h| / 2 ==> Described(h, describeOperation, id, data.history[id]))
    && exists ordered :: multiset(ordered) == multiset(partials) && ShownIn(m, h, ordered, describeState, data)
  }

  ghost predicate ShownIn<S, I, O>(m: Model<S, I, O>, h: seq<Entry<I, O>>, ordered: seq<seq<nat>>, describeState: S -> string,
                                   data: PartitionData)
    requires WellFormed(h)
  {
    && LongestFirst(ordered) && |data.partialLinearizations| == |ordered|
    && (forall i :: 0 <= i < |ordered| ==> Replayed(m, OpsOf(h), describeState, ordered[i], data.partialLinearizations[i]))
    && (forall id :: id in data.largest <==> exists p :: p in ordered && id in p)
    && (forall id :: id in data.largest ==> data.largest[id] < |ordered| && id in ordered[data.largest[id]])
    && (forall id, p :: id in data.largest && p in ordered && id in p ==> |p| <= |ordered[data.largest[id]]|)
  }

  method ComputePartition<S, I, O>(m: Model<S, I, O>, h: seq<Entry<I, O>>, partials: seq<seq<nat>>,
                                   describeOperation: (Option<I>, O) -> Option<string>, describeState: S -> string)
    returns (data: PartitionData)
    requires WellFormed(h)
    requires forall p :: p in partials ==> PartialLinearization(m, OpsOf(h), p)
    ensures Shown(m, h, partials, describeOperation, describeState, data)
  {
    var history, callValue, returnValue := CollectValues(h, describeOperation);
    var ordered := SortByLength(partials);
    SameMembers(ordered, partials);
    hide Described, WellFormed, LongestFirst, ValuesById, ShownIn, PartialLinearization;
    data := ReplayAll(m, h, history, callValue, returnValue, describeState, ordered);
  }

  method ReplayAll<S, I, O>(m: Model<S, I, O>, ghost h: seq<Entry<I, O>>, history: seq<HistoryElement>, callValue: map<int, I>,
                            returnValue: map<int, O>, describeState: S -> string, ordered: seq<seq<nat>>)
    returns (data: PartitionData)
    requires WellFormed(h) && ValuesById(OpsOf(h), callValue, returnValue) && LongestFirst(ordered)
    requires forall p :: p in ordered ==> PartialLinearization(m, OpsOf(h), p)
    ensures data.history == history && ShownIn(m, h, ordered, describeState, data)
  {
    var linearizations: seq<seq<LinearizationStep>> := [];
    var largest: map<nat, nat>, size: map<nat, nat> := map[], map[];
    ghost var ops := OpsOf(h);
    assert LargestOk(ordered, 0, 0, largest, size);
    hide WellFormed, LongestFirst, ValuesById, PartialLinearization, Replayed, LargestOk, OpsOf, ShownIn;
    for i := 0 to |ordered|
      invariant |linearizations| == i
      invariant forall k :: 0 <= k < i ==> Replayed(m, ops, describeState, ordered[k], linearizations[k])
      invariant LargestOk(ordered, i, 0, largest, size)
    {
      assert ordered[i] in ordered;
      var steps;
      steps, largest, size := Replay(m, callValue, returnValue, describeState, ordered, i, largest, size, ops);
      linearizations := linearizations + [steps];
    }
    data := PartitionData(history, linearizations, largest);
    Assembled(m, h, ordered, describeState, data, size);
  }

  lemma Assembled<S, I, O>(m: Model<S, I, O>, h: seq<Entry<I, O>>, ordered: seq<seq<nat>>, describeState: S -> string,
                           data: PartitionData, size: map<nat, nat>)
    requires WellFormed(h) && LongestFirst(ordered) && |data.partialLinearizations| == |ordered|
    requires forall i :: 0 <= i < |ordered| ==> Replayed(m, OpsOf(h), describeState, ordered[i], data.partialLinearizations[i])
    requires LargestOk(ordered, |ordered|, 0, data.largest, size)
    ensures ShownIn(m, h, ordered, describeState, data)
  {
    hide WellFormed, LongestFirst, Replayed, LargestOk, OpsOf;
    LargestDone(ordered, data.largest, size);
  }

  lemma LargestDone(ps: seq<seq<nat>>, index: map<nat, nat>, size: map<nat, nat>)
    requires LargestOk(ps, |ps|, 0, index, size)
    ensures forall id :: id in index <==> exists p :: p in ps && id in p
    ensures forall id :: id in index ==> index[id] < |ps| && id in ps[index[id]]
    ensures forall id, p :: id in index && p in ps && id in p ==> |p| <= |ps[index[id]]|
  {
    forall id ensures id in index <==> exists p :: p in ps && id in p {
      if id in index { assert Visited(ps, |ps|, 0, id); }
      if p :| p in ps && id in p {
        var k :| 0 <= k < |ps| && ps[k] == p;
        assert Visited(ps, |ps|, 0, id);
      }
    }
    forall id, p | id in index && p in ps && id in p ensures |p| <= |ps[index[id]]| {
      var k :| 0 <= k < |ps| && ps[k] == p;
    }
  }

  method ComputeVisualizationData<S, I, O>(m: Model<S, I, O>, lists: seq<seq<Entry<I, O>>>, partials: seq<seq<seq<nat>>>,
                                           describeOperation: (Option<I>, O) -> Option<string>, describeState: S -> string)
    returns (data: seq<PartitionData>)
    requires |partials| == |lists| && forall i :: 0 <= i < |lists| ==> WellFormed(lists[i])
    requires forall i, p :: 0 <= i < |lists| && p in partials[i] ==> PartialLinearization(m, OpsOf(lists[i]), p)
    ensures |data| == |lists|
    ensures forall i :: 0 <= i < |lists| ==> Shown(m, lists[i], partials[i], describeOperation, describeState, data[i])
  {
    data := [];
    hide WellFormed, Shown, PartialLinearization;
    for partition := 0 to |lists|
      invariant |data| == partition
      invariant forall i :: 0 <= i < partition ==> Shown(m, lists[i], partials[i], describeOperation, describeState, data[i])
    {
      var shown := ComputePartition(m, lists[partition], partials[partition], describeOperation, describeState);
      data := data + [shown];
    }
  }
}
