/** From the report of the parallel driver to the visualization. */
module VerboseCheck {
  import opened Wrappers
  import opened Sequences
  import opened Linearizability
  import opened Entries
  import opened MakeEntries
  import opened KvModel
  import opened CheckParallel
  import opened CheckOperations
  import opened Visualization
  import opened Ties

  /** Every operation that some partial linearization of the partition contains is shown with a longest one. */
  ghost predicate LongestShown<S(!new), I, O>(m: Model<S, I, O>, ops: seq<Operation<I, O>>, data: PartitionData) {
    forall l, x :: PartialLinearization(m, ops, l) && x in l ==>
      && x in data.largest && data.largest[x] < |data.partialLinearizations|
      && |data.partialLinearizations[data.largest[x]]| >= |l|
  }

  lemma ReportShown<S(!new), I(!new), O(!new)>(
    m: Model<S, I, O>, lists: seq<seq<Entry<I, O>>>, hasTimeout: bool, states: seq<State>, steps: seq<Step>, i: nat)
    requires WellFormedLists(lists) && i < |lists|
    requires Run(SetupOf(m, lists, true, hasTimeout), states, steps) && states[|steps|].driver.Finished?
    ensures |states[|steps|].driver.info| == |lists|
    ensures forall p :: p in states[|steps|].driver.info[i] ==> PartialLinearization(m, OpsOf(lists[i]), p)
  {
    var c := SetupOf(m, lists, true, hasTimeout);
    assert c.parts[i] == OpsOf(lists[i]);
    ReportValid(c, states, steps, i);
  }

  lemma MaximalShown<S(!new), I(!new), O(!new)>(
    m: Model<S, I, O>, lists: seq<seq<Entry<I, O>>>, hasTimeout: bool, states: seq<State>, steps: seq<Step>, i: nat,
    describeOperation: (Option<I>, O) -> Option<string>, describeState: S -> string, data: PartitionData)
    requires EqualitySound(m) && WellFormedLists(lists) && i < |lists|
    requires Run(SetupOf(m, lists, true, hasTimeout), states, steps) && !TimesOut(steps) && states[|steps|].driver.Finished?
    requires |states[|steps|].driver.info| == |lists|
    requires Shown(m, lists[i], states[|steps|].driver.info[i], describeOperation, describeState, data)
    ensures LongestShown(m, OpsOf(lists[i]), data)
  {
    var c, info := SetupOf(m, lists, true, hasTimeout), states[|steps|].driver.info[i];
    assert c.parts[i] == OpsOf(lists[i]);
    var ordered :| multiset(ordered) == multiset(info) && ShownIn(m, lists[i], ordered, describeState, data);
    SameMembers(ordered, info);
    hide Run, PartialLinearization, EqualitySound, WellFormedLists, LongestFirst, OpsOf;
    forall l, x | PartialLinearization(m, OpsOf(lists[i]), l) && x in l
      ensures x in data.largest && data.largest[x] < |data.partialLinearizations|
      ensures |data.partialLinearizations[data.largest[x]]| >= |l|
    {
      ReportMaximal(c, states, steps, i, l, x);
      var p :| p in info && x in p && |p| >= |l|;
    }
  }

  /** Whatever the driver reports can be replayed without a panic, killed searches included. Unless the timeout strikes, and
      with a sound equality, what is shown for an operation is a longest of all its partial linearizations. */
  method VisualizeReport<S(!new), I(!new), O(!new)>(
    m: Model<S, I, O>, lists: seq<seq<Entry<I, O>>>, info: seq<seq<seq<nat>>>,
    describeOperation: (Option<I>, O) -> Option<string>, describeState: S -> string,
    ghost hasTimeout: bool, ghost states: seq<State>, ghost steps: seq<Step>)
    returns (data: seq<PartitionData>)
    requires WellFormedLists(lists)
    requires Run(SetupOf(m, lists, true, hasTimeout), states, steps) && states[|steps|].driver.Finished?
    requires |info| == |lists| && info == states[|steps|].driver.info
    ensures |data| == |lists|
    ensures forall i :: 0 <= i < |lists| ==> Shown(m, lists[i], info[i], describeOperation, describeState, data[i])
    ensures !TimesOut(steps) && EqualitySound(m) ==> forall i :: 0 <= i < |lists| ==> LongestShown(m, OpsOf(lists[i]), data[i])
  {
    hide Shown, LongestShown, Run, TimesOut, PartialLinearization, EqualitySound;
    forall i, p | 0 <= i < |lists| && p in info[i] ensures PartialLinearization(m, OpsOf(lists[i]), p) {
      ReportShown(m, lists, hasTimeout, states, steps, i);
    }
    data := ComputeVisualizationData(m, lists, info, describeOperation, describeState);
    if !TimesOut(steps) && EqualitySound(m) {
      forall i | 0 <= i < |lists| ensures LongestShown(m, OpsOf(lists[i]), data[i]) {
        MaximalShown(m, lists, hasTimeout, states, steps, i, describeOperation, describeState, data[i]);
      }
    }
  }

  /** An operation of the key/value model is shown without a panic exactly when its call is listed before its return. */
  lemma DescriptionFails(h: seq<KvEntry>, partials: seq<seq<nat>>, describeState: string -> string, data: PartitionData, id: nat)
    requires WellFormed(h) && id < |h| / 2 && Shown(REGISTER, h, partials, DescribeOperation, describeState, data)
    ensures data.history[id].description == None <==> OpsOf(h)[id].ret < OpsOf(h)[id].call
  {
    assert Described(h, DescribeOperation, id, data.history[id]);
    OpsTimeline(h);
  }

  /** The sort may leave a return before its call exactly when the operation does not return later than it is called. */
  lemma {:induction false} DescriptionMayFail(part: seq<KvOperation>, id: nat)
    requires id < |part|
    ensures (exists list :: EntriesFor(part, list) && ListedBackward(list, id)) <==> part[id].ret <= part[id].call
  {
    forall list | EntriesFor(part, list) && ListedBackward(list, id) ensures part[id].ret <= part[id].call {
      OperationsOfEntries(part, list);
      assert Precedes(OpsOf(list), id, id);
    }
    if part[id].ret <= part[id].call {
      var list := ArrangeOne(part);
      ReturnPrecedes(part, list, id, id);
      ReturnsFirstDecides(REGISTER, part, list);
      assert EntriesFor(part, list) && ListedBackward(list, id);
    }
  }

  ghost predicate ListedBackward(list: seq<KvEntry>, id: nat) {
    WellFormed(list) && id < |list| / 2 && OpsOf(list)[id].ret < OpsOf(list)[id].call
  }
}
