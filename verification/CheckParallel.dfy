/** The parallel driver: one worker per partition, a result channel, a kill flag and a
    timeout, as a state machine over the atomic steps of workers and driver. */
module CheckParallel {
  import opened Wrappers
  import opened Sequences
  import opened Linearizability
  import opened Search

  datatype CheckResult = Unknown | Ok | Illegal


  datatype Setup<!S, !I, !O> = Setup(model: Model<S, I, O>, parts: seq<seq<Operation<I, O>>>, computeInfo: bool, hasTimeout: bool)

  /** A worker searches, stores what it recorded, then sends its verdict. */
  datatype Worker = Searching | Wrote(ok: bool, killed: bool) | Sent(ok: bool, killed: bool)

  datatype Driver = Looping | Draining | Finished(result: CheckResult, info: seq<seq<seq<nat>>>)

  datatype State = State(workers: seq<Worker>, longest: seq<Option<Longest>>, channel: seq<bool>, kill: bool,
                         ok: bool, timedOut: bool, count: nat, driver: Driver, order: seq<nat>)
    // `order` lists the workers in the order in which they sent; the program does not keep it

  datatype Step =
    | Write(i: nat, ok: bool, killed: bool, found: Longest)  // checkSingle returns and longest[i] is written
    | Send(i: nat)
    | Receive
    | Timeout
    | Drain
    | Report(info: seq<seq<seq<nat>>>)

  ghost predicate Init<S(!new), I(!new), O(!new)>(c: Setup<S, I, O>, s: State) {
    var n := |c.parts|;
    s == State(seq(n, _ => Searching), seq(n, _ => None), [], false, true, false, 0, Looping, [])
  }

  /** `order` holds every slice that a slot points at once, in some order. */
  ghost predicate EachSliceOnce(order: seq<Slice>, longest: Longest) {
    && (forall i, j :: 0 <= i < j < |order| ==> order[i].address != order[j].address)
    && (forall i :: 0 <= i < |order| ==> Some(order[i]) in longest)
    && (forall x :: 0 <= x < |longest| && longest[x].Some? ==>
          exists i :: 0 <= i < |order| && order[i].address == longest[x].value.address)
  }

  ghost function Contents(order: seq<Slice>): seq<seq<nat>> {
    seq(|order|, i requires 0 <= i < |order| => order[i].ids)
  }

  /** The partial linearizations reported for one partition: the contents of its slices. */
  ghost predicate Reports(list: seq<seq<nat>>, slot: Option<Longest>) {
    slot.Some? && exists order :: EachSliceOnce(order, slot.value) && list == Contents(order)
  }

  function Verdict(ok: bool, timedOut: bool): CheckResult {
    if !ok then Illegal else if timedOut then Unknown else Ok
  }

  ghost predicate Next<S(!new), I(!new), O(!new)>(c: Setup<S, I, O>, s: State, step: Step, s': State) {
    var n := |c.parts|;
    && |s.workers| == |s.longest| == n
    && match step
       case Write(i, ok, killed, found) =>
         && i < n && s.workers[i].Searching?
         && (killed ==> s.kill)  // the flag was up when the search looked, and it never goes down
         && Outcome(c.model, c.parts[i], c.computeInfo, killed, ok, found)
         && s' == s.(workers := s.workers[i := Wrote(ok, killed)], longest := s.longest[i := Some(found)])
       case Send(i) =>
         && i < n && s.workers[i].Wrote?
         && s' == s.(workers := s.workers[i := Sent(s.workers[i].ok, s.workers[i].killed)],
                     channel := s.channel + [s.workers[i].ok], order := s.order + [i])
       case Receive =>
         && s.driver.Looping? && s.channel != []
         && var ok := s.ok && s.channel[0];
            var t := s.(channel := s.channel[1..], count := s.count + 1, ok := ok);
            s' == if !ok && !c.computeInfo then t.(kill := true, driver := Draining)
                  else if s.count + 1 >= n then t.(driver := Draining)
                  else t
       case Timeout =>
         && s.driver.Looping? && c.hasTimeout
         && s' == s.(timedOut := true, kill := true, driver := Draining)
       case Drain =>
         && s.driver.Draining? && c.computeInfo && s.count < n && s.channel != []
         && s' == s.(channel := s.channel[1..], count := s.count + 1)
       case Report(info) =>
         && s.driver.Draining? && (c.computeInfo ==> s.count >= n)
         && |info| == (if c.computeInfo then n else 0)
         && (forall i :: 0 <= i < |info| ==> Reports(info[i], s.longest[i]))
         && s' == s.(driver := Finished(Verdict(s.ok, s.timedOut), info))
  }

  /** A run of the driver and its workers, under any interleaving. */
  ghost predicate Run<S(!new), I(!new), O(!new)>(c: Setup<S, I, O>, states: seq<State>, steps: seq<Step>) {
    && |states| == |steps| + 1
    && Init(c, states[0])
    && forall k :: 0 <= k < |steps| ==> Next(c, states[k], steps[k], states[k + 1])
  }

  // ---------------------------------------------------------------------------------
  // The invariant

  ghost predicate WorkerOk<S(!new), I(!new), O(!new)>(c: Setup<S, I, O>, s: State, i: nat)
    requires |s.workers| == |s.longest| == |c.parts| && i < |c.parts|
  {
    match s.workers[i]
    case Searching => s.longest[i] == None
    case Wrote(ok, killed) =>
      s.longest[i].Some? && (killed ==> s.kill) && Outcome(c.model, c.parts[i], c.computeInfo, killed, ok, s.longest[i].value)
    case Sent(ok, killed) =>
      s.longest[i].Some? && (killed ==> s.kill) && Outcome(c.model, c.parts[i], c.computeInfo, killed, ok, s.longest[i].value)
  }

  /** Sent results are queued in order; the first `count` of them have been received. */
  ghost predicate ChannelOk<S(!new), I(!new), O(!new)>(c: Setup<S, I, O>, s: State)
    requires |s.workers| == |c.parts|
  {
    && NoDup(s.order) && InRange(s.order, |c.parts|)
    && s.count + |s.channel| == |s.order|
    && (forall i :: 0 <= i < |s.order| ==> s.workers[s.order[i]].Sent?)
    && (forall i :: 0 <= i < |s.workers| && s.workers[i].Sent? ==> i in s.order)
    && (forall i :: 0 <= i < |s.channel| ==> s.channel[i] == s.workers[s.order[s.count + i]].ok)
  }

  ghost predicate RefutedBy(s: State, i: nat) {
    i < |s.workers| && s.workers[i].Sent? && !s.workers[i].ok && !s.workers[i].killed
  }

  /** What the driver knows: `ok` speaks of the results received while nothing had been killed. */
  ghost predicate DriverOk<S(!new), I(!new), O(!new)>(c: Setup<S, I, O>, s: State)
    requires |s.workers| == |c.parts|
  {
    && (s.driver.Looping? ==> !s.kill && !s.timedOut && s.count <= |c.parts|)
    && (s.driver.Looping? && 0 < |c.parts| ==> s.count < |c.parts|)
    && (s.timedOut ==> c.hasTimeout) && (s.kill ==> s.timedOut || !c.computeInfo)
    && (!s.driver.Looping? && c.parts == [] ==> s.timedOut)
    && (!s.ok ==> exists i: nat :: RefutedBy(s, i))
    && (s.ok && !s.timedOut ==> s.count <= |s.order| && forall i: nat :: i < s.count ==> s.order[i] < |s.workers| && s.workers[s.order[i]].Sent? && s.workers[s.order[i]].ok)
    && (!s.driver.Looping? && s.ok && !s.timedOut ==> s.count >= |c.parts|)
    && (s.driver.Looping? && !c.computeInfo ==> s.ok)
    && (s.driver.Finished? ==> s.driver.result == Verdict(s.ok, s.timedOut))
  }

  ghost predicate ReportOk<S(!new), I(!new), O(!new)>(c: Setup<S, I, O>, s: State)
    requires |s.workers| == |s.longest| == |c.parts|
  {
    s.driver.Finished? && c.computeInfo ==>
      && |s.driver.info| == |c.parts|
      && forall i :: 0 <= i < |c.parts| ==> s.workers[i].Sent? && Reports(s.driver.info[i], s.longest[i])
  }

  ghost predicate ParallelInv<S(!new), I(!new), O(!new)>(c: Setup<S, I, O>, s: State) {
    && |s.workers| == |s.longest| == |c.parts|
    && (forall i :: 0 <= i < |c.parts| ==> WorkerOk(c, s, i))
    && ChannelOk(c, s) && DriverOk(c, s) && ReportOk(c, s)
  }

  lemma InvInit<S(!new), I(!new), O(!new)>(c: Setup<S, I, O>, s: State)
    requires Init(c, s)
    ensures ParallelInv(c, s)
  {
  }

  /** Once all results have been counted, every worker has sent. */
  lemma AllSent<S(!new), I(!new), O(!new)>(c: Setup<S, I, O>, s: State)
    requires |s.workers| == |c.parts| && ChannelOk(c, s) && s.count >= |c.parts|
    ensures forall i :: 0 <= i < |c.parts| ==> s.workers[i].Sent? && Received(s, i)
  {
    CountIds(s.order, |c.parts|);
    forall i: nat | i < |c.parts| ensures s.workers[i].Sent? && Received(s, i) {
      assert i in AllIds(|c.parts|);
      assert i in s.order;
    }
  }

  ghost predicate Received(s: State, i: nat) {
    exists k :: 0 <= k < s.count && k < |s.order| && s.order[k] == i
  }

  lemma InvWrite<S(!new), I(!new), O(!new)>(c: Setup<S, I, O>, s: State, step: Step, s': State)
    requires ParallelInv(c, s) && Next(c, s, step, s') && step.Write?
    ensures ParallelInv(c, s')
  {
    hide Outcome, Reports;
    forall i | 0 <= i < |c.parts| ensures WorkerOk(c, s', i) { assert WorkerOk(c, s, i); }
    if !s.ok { var i :| RefutedBy(s, i); assert RefutedBy(s', i); }
  }

  lemma InvSend<S(!new), I(!new), O(!new)>(c: Setup<S, I, O>, s: State, step: Step, s': State)
    requires ParallelInv(c, s) && Next(c, s, step, s') && step.Send?
    ensures ParallelInv(c, s')
  {
    hide Outcome, Reports;
    forall i | 0 <= i < |c.parts| ensures WorkerOk(c, s', i) { assert WorkerOk(c, s, i); }
    if !s.ok { var i :| RefutedBy(s, i); assert RefutedBy(s', i); }
  }

  lemma ChannelPop<S(!new), I(!new), O(!new)>(c: Setup<S, I, O>, s: State, s': State)
    requires |s.workers| == |c.parts| && ChannelOk(c, s) && s.channel != []
    requires s'.workers == s.workers && s'.order == s.order && s'.channel == s.channel[1..] && s'.count == s.count + 1
    ensures ChannelOk(c, s') && s'.count <= |c.parts| && s.order[s.count] < |c.parts|
    ensures s.workers[s.order[s.count]].Sent? && s.channel[0] == s.workers[s.order[s.count]].ok
  {
    CountIds(s.order, |c.parts|);
  }

  lemma InvReceive<S(!new), I(!new), O(!new)>(c: Setup<S, I, O>, s: State, step: Step, s': State)
    requires ParallelInv(c, s) && Next(c, s, step, s') && step.Receive?
    ensures ParallelInv(c, s')
  {
    hide Outcome, Reports;
    ChannelPop(c, s, s');
    var i := s.order[s.count];
    assert WorkerOk(c, s, i);
    if !s'.ok {
      if s.ok { assert RefutedBy(s', i); } else { var j :| RefutedBy(s, j); assert RefutedBy(s', j); }
    }
    hide ChannelOk;
    forall i | 0 <= i < |c.parts| ensures WorkerOk(c, s', i) { assert WorkerOk(c, s, i); }
  }

  lemma InvTimeout<S(!new), I(!new), O(!new)>(c: Setup<S, I, O>, s: State, step: Step, s': State)
    requires ParallelInv(c, s) && Next(c, s, step, s') && step.Timeout?
    ensures ParallelInv(c, s')
  {
    hide Outcome, Reports;
    forall i | 0 <= i < |c.parts| ensures WorkerOk(c, s', i) { assert WorkerOk(c, s, i); }
    if !s.ok { var i :| RefutedBy(s, i); assert RefutedBy(s', i); }
  }

  lemma InvDrain<S(!new), I(!new), O(!new)>(c: Setup<S, I, O>, s: State, step: Step, s': State)
    requires ParallelInv(c, s) && Next(c, s, step, s') && step.Drain?
    ensures ParallelInv(c, s')
  {
    hide Outcome, Reports;
    ChannelPop(c, s, s');
    hide ChannelOk;
    forall i | 0 <= i < |c.parts| ensures WorkerOk(c, s', i) { assert WorkerOk(c, s, i); }
    if !s.ok { var i :| RefutedBy(s, i); assert RefutedBy(s', i); }
  }

  lemma InvReport<S(!new), I(!new), O(!new)>(c: Setup<S, I, O>, s: State, step: Step, s': State)
    requires ParallelInv(c, s) && Next(c, s, step, s') && step.Report?
    ensures ParallelInv(c, s')
  {
    hide Outcome, Reports;
    if c.computeInfo { AllSent(c, s); }
    assert ChannelOk(c, s');
    hide ChannelOk, Received;
    forall i | 0 <= i < |c.parts| ensures WorkerOk(c, s', i) { assert WorkerOk(c, s, i); }
    if !s.ok { var i :| RefutedBy(s, i); assert RefutedBy(s', i); }
  }

  lemma {:induction false} InvRun<S(!new), I(!new), O(!new)>(c: Setup<S, I, O>, states: seq<State>, steps: seq<Step>)
    requires Run(c, states, steps)
    ensures ParallelInv(c, states[|steps|])
  {
    if steps == [] {
      InvInit(c, states[0]);
    } else {
      var k := |steps| - 1;
      InvRun(c, states[..k + 1], steps[..k]);
      var s, step, s' := states[k], steps[k], states[k + 1];
      assert Next(c, s, step, s');
      match step
      case Write(_, _, _, _) => InvWrite(c, s, step, s');
      case Send(_) => InvSend(c, s, step, s');
      case Receive => InvReceive(c, s, step, s');
      case Timeout => InvTimeout(c, s, step, s');
      case Drain => InvDrain(c, s, step, s');
      case Report(_) => InvReport(c, s, step, s');
    }
  }

  // ---------------------------------------------------------------------------------
  // What a run that reports has established

  ghost predicate TimesOut(steps: seq<Step>) {
    exists k :: 0 <= k < |steps| && steps[k].Timeout?
  }

  /** The driver has taken a negative result from the channel. */
  ghost predicate Refuses(states: seq<State>, steps: seq<Step>) {
    exists k :: 0 <= k < |steps| && k < |states| && steps[k].Receive? && states[k].channel != [] && !states[k].channel[0]
  }

  /** What the driver's variables say about the run: whether it timed out, whether it took a negative result, and that
      the workers are told to stop exactly on a timeout, or on a negative result if no report is wanted. */
  lemma {:induction false} RunHistory<S(!new), I(!new), O(!new)>(c: Setup<S, I, O>, states: seq<State>, steps: seq<Step>)
    requires Run(c, states, steps)
    ensures var s := states[|steps|];
            && (s.timedOut <==> TimesOut(steps))
            && (!s.ok <==> Refuses(states, steps))
            && (s.kill <==> TimesOut(steps) || (Refuses(states, steps) && !c.computeInfo))
  {
    if steps != [] {
      var k := |steps| - 1;
      var states0, steps0 := states[..k + 1], steps[..k];
      RunHistory(c, states0, steps0);
      assert Next(c, states[k], steps[k], states[k + 1]);
      HistoryGrows(states0, steps0, states, steps);
    }
  }

  lemma HistoryGrows(states0: seq<State>, steps0: seq<Step>, states: seq<State>, steps: seq<Step>)
    requires |states| == |steps| + 1 && steps != [] && states0 == states[..|steps|] && steps0 == steps[..|steps| - 1]
    ensures TimesOut(steps) <==> TimesOut(steps0) || steps[|steps| - 1].Timeout?
    ensures var s, step := states[|steps| - 1], steps[|steps| - 1];
            Refuses(states, steps) <==> Refuses(states0, steps0) || (step.Receive? && s.channel != [] && !s.channel[0])
  {
    if TimesOut(steps0) {
      var k :| 0 <= k < |steps0| && steps0[k].Timeout?;
      assert steps[k].Timeout?;
    }
    if Refuses(states0, steps0) {
      var k :| 0 <= k < |steps0| && k < |states0| && steps0[k].Receive? && states0[k].channel != [] && !states0[k].channel[0];
      assert steps[k].Receive? && states[k] == states0[k];
    }
    if k :| 0 <= k < |steps0| && steps[k].Timeout? { assert steps0[k].Timeout?; }
    if k :| 0 <= k < |steps0| && steps[k].Receive? && states[k].channel != [] && !states[k].channel[0] {
      assert steps0[k].Receive? && states0[k] == states[k];
    }
  }

  /** The verdict by what happened: a negative result taken from the channel means Illegal, even if a timeout follows;
      without one, a timeout means Unknown; and otherwise it is Ok. */
  lemma VerdictByRun<S(!new), I(!new), O(!new)>(c: Setup<S, I, O>, states: seq<State>, steps: seq<Step>)
    requires Run(c, states, steps) && states[|steps|].driver.Finished?
    ensures var result := states[|steps|].driver.result;
            && (result == Illegal <==> Refuses(states, steps))
            && (result == Unknown <==> !Refuses(states, steps) && TimesOut(steps))
            && (result == Ok <==> !Refuses(states, steps) && !TimesOut(steps))
  {
    InvRun(c, states, steps);
    RunHistory(c, states, steps);
  }

  /** The verdict is right under every interleaving: Ok means that every partition is linearizable, Illegal that
      some partition is not (a search cut short by the kill flag is never the reason), provided that the model's
      equality is sound, and Unknown that the timeout has struck. */
  lemma VerdictSound<S(!new), I(!new), O(!new)>(c: Setup<S, I, O>, states: seq<State>, steps: seq<Step>)
    requires Run(c, states, steps) && states[|steps|].driver.Finished?
    ensures var result := states[|steps|].driver.result;
            && (result == Ok ==> forall i :: 0 <= i < |c.parts| ==> Linearizable(c.model, c.parts[i]))
            && (result == Illegal && EqualitySound(c.model) ==> exists i :: 0 <= i < |c.parts| && !Linearizable(c.model, c.parts[i]))
            && (result == Unknown ==> TimesOut(steps) && c.hasTimeout)
  {
    InvRun(c, states, steps);
    VerdictByRun(c, states, steps);
    RunHistory(c, states, steps);
    hide TimesOut, Refuses;
    var s := states[|steps|];
    if s.driver.result == Ok {
      AllSent(c, s);
      forall i: nat | i < |c.parts| ensures Linearizable(c.model, c.parts[i]) {
        assert Received(s, i);
        assert s.workers[i].ok;
        assert WorkerOk(c, s, i);
      }
    }
    if s.driver.result == Illegal && EqualitySound(c.model) {
      var i :| RefutedBy(s, i);
      assert WorkerOk(c, s, i);
    }
  }

  /** When the timeout does not strike, configured or not, the verdict is exact. */
  lemma VerdictExact<S(!new), I(!new), O(!new)>(c: Setup<S, I, O>, states: seq<State>, steps: seq<Step>)
    requires Run(c, states, steps) && states[|steps|].driver.Finished? && !TimesOut(steps) && EqualitySound(c.model)
    ensures states[|steps|].driver.result ==
              if forall i :: 0 <= i < |c.parts| ==> Linearizable(c.model, c.parts[i]) then Ok else Illegal
  {
    VerdictSound(c, states, steps);
  }

  /** The report lists the contents of the slots once each. */
  lemma ReportsExactly(list: seq<seq<nat>>, longest: Longest)
    requires Reports(list, Some(longest)) && SlicesOk(longest)
    ensures NoDup(list)
    ensures forall l :: l in list <==> SlotWith(longest, l)
  {
    var order: seq<Slice> :| EachSliceOnce(order, longest) && list == Contents(order);
    hide SlicesOk;
    forall i | 0 <= i < |order| ensures SlotWith(longest, list[i]) {
      var x := SlotOf(longest, order[i]);
    }
    forall l | SlotWith(longest, l) ensures l in list {
      var x :| 0 <= x < |longest| && longest[x].Some? && longest[x].value.ids == l;
      var i :| 0 <= i < |order| && order[i].address == longest[x].value.address;
      SameSlice(longest, order[i], longest[x].value);
      assert list[i] == l;
    }
    hide SlotWith;
    forall i, j | 0 <= i < j < |list| ensures list[i] != list[j] {
      SameSlice(longest, order[i], order[j]);
    }
  }

  lemma SameSlice(longest: Longest, a: Slice, b: Slice)
    requires SlicesOk(longest) && Some(a) in longest && Some(b) in longest
    ensures a.address == b.address <==> a.ids == b.ids
  {
    var x, y := SlotOf(longest, a), SlotOf(longest, b);
    assert longest[x].value == a && longest[y].value == b;
  }

  /** Some slot records `l`. */
  ghost predicate SlotWith(longest: Longest, l: seq<nat>) {
    exists x :: 0 <= x < |longest| && longest[x].Some? && longest[x].value.ids == l
  }

  ghost function SlotOf(longest: Longest, slice: Slice): (x: nat)
    requires Some(slice) in longest
    ensures x < |longest| && longest[x] == Some(slice)
  {
    var x: nat :| x < |longest| && longest[x] == Some(slice); x
  }

  /** Reported partial linearizations are valid, killed searches included, are listed once each, and are read only
      after every worker has stored its own. */
  lemma ReportValid<S(!new), I(!new), O(!new)>(c: Setup<S, I, O>, states: seq<State>, steps: seq<Step>, i: nat)
    requires Run(c, states, steps) && states[|steps|].driver.Finished? && c.computeInfo && i < |c.parts|
    ensures var s := states[|steps|];
            && |s.workers| == |s.longest| == |s.driver.info| == |c.parts|
            && s.workers[i].Sent? && s.longest[i].Some? && NoDup(s.driver.info[i])
            && (forall l :: l in s.driver.info[i] <==> SlotWith(s.longest[i].value, l))
            && forall l :: l in s.driver.info[i] ==> PartialLinearization(c.model, c.parts[i], l)
  {
    InvRun(c, states, steps);
    assert WorkerOk(c, states[|steps|], i);
    ReportsExactly(states[|steps|].driver.info[i], states[|steps|].longest[i].value);
  }

  /** When the timeout does not strike, the report holds, for every operation, a longest partial linearization through it. */
  lemma ReportMaximal<S(!new), I(!new), O(!new)>(c: Setup<S, I, O>, states: seq<State>, steps: seq<Step>, i: nat, l: seq<nat>, x: nat)
    requires Run(c, states, steps) && states[|steps|].driver.Finished? && c.computeInfo && !TimesOut(steps) && EqualitySound(c.model)
    requires i < |c.parts| && PartialLinearization(c.model, c.parts[i], l) && x in l
    ensures |states[|steps|].driver.info| == |c.parts|
    ensures exists p :: p in states[|steps|].driver.info[i] && x in p && |p| >= |l|
  {
    InvRun(c, states, steps);
    ReportValid(c, states, steps, i);
    RunHistory(c, states, steps);
    hide TimesOut, Refuses;
    var s := states[|steps|];
    assert WorkerOk(c, s, i) && !s.workers[i].killed;
    assert s.longest[i].value[x].Some?;
    var p := s.longest[i].value[x].value.ids;
    CountIds(l, |c.parts[i]|);
    assert p in s.driver.info[i];
  }

  /** What was stored is never overwritten, so the report reads what each search returned. */
  lemma {:induction false} WrittenOnce<S(!new), I(!new), O(!new)>(c: Setup<S, I, O>, states: seq<State>, steps: seq<Step>, k: nat, i: nat)
    requires Run(c, states, steps) && k <= |steps| && i < |c.parts|
    requires |states[k].longest| == |c.parts| && states[k].longest[i].Some?
    ensures |states[|steps|].longest| == |c.parts| && states[|steps|].longest[i] == states[k].longest[i]
  {
    if k < |steps| {
      var n := |steps| - 1;
      WrittenOnce(c, states[..n + 1], steps[..n], k, i);
      InvRun(c, states[..n + 1], steps[..n]);
      assert Next(c, states[n], steps[n], states[n + 1]);
      assert WorkerOk(c, states[n], i);
    }
  }

  // ---------------------------------------------------------------------------------
  // Whether a run gets to report at all

  function Rank(w: Worker): nat {
    match w case Searching => 2 case Wrote(_, _) => 1 case Sent(_, _) => 0
  }

  function TotalRank(ws: seq<Worker>): nat {
    if ws == [] then 0 else TotalRank(ws[..|ws| - 1]) + Rank(ws[|ws| - 1])
  }

  lemma {:induction false} TotalRankUpdate(ws: seq<Worker>, i: nat, w: Worker)
    requires i < |ws|
    ensures TotalRank(ws[i := w]) == TotalRank(ws) - Rank(ws[i]) + Rank(w)
  {
    var n := |ws| - 1;
    if i < n {
      TotalRankUpdate(ws[..n], i, w);
      assert ws[i := w][..n] == ws[..n][i := w];
    } else {
      assert ws[i := w][..n] == ws[..n];
    }
  }

  function Remaining(s: State): nat {
    2 * TotalRank(s.workers) + |s.channel| +
    match s.driver case Looping => 2 case Draining => 1 case Finished(_, _) => 0
  }

  /** Every step brings the run closer to its end, so all runs are finite. */
  lemma StepsDecrease<S(!new), I(!new), O(!new)>(c: Setup<S, I, O>, s: State, step: Step, s': State)
    requires Next(c, s, step, s')
    ensures Remaining(s') < Remaining(s)
  {
    match step
    case Write(i, ok, killed, _) => TotalRankUpdate(s.workers, i, Wrote(ok, killed));
    case Send(i) => TotalRankUpdate(s.workers, i, Sent(s.workers[i].ok, s.workers[i].killed));
    case _ =>
  }

  ghost predicate CanStep<S(!new), I(!new), O(!new)>(c: Setup<S, I, O>, s: State) {
    exists step, s' :: Next(c, s, step, s')
  }

  /** Something other than the timeout can happen. */
  ghost predicate MovesInTime<S(!new), I(!new), O(!new)>(c: Setup<S, I, O>, s: State) {
    exists step, s' :: Next(c, s, step, s') && !step.Timeout?
  }

  /** The slots of one partition can be listed. */
  lemma {:induction false} CanReport(longest: Longest, k: nat) returns (order: seq<Slice>)
    requires k <= |longest|
    ensures EachSliceOnce(order, longest[..k])
  {
    if k == 0 {
      order := [];
    } else {
      order := CanReport(longest, k - 1);
      assert longest[..k] == longest[..k - 1] + [longest[k - 1]];
      if longest[k - 1].Some? && forall i :: 0 <= i < |order| ==> order[i].address != longest[k - 1].value.address {
        var more := order + [longest[k - 1].value];
        assert forall i :: 0 <= i < |order| ==> more[i] == order[i];
        assert more[|order|] == longest[k - 1].value;
        order := more;
      }
    }
  }

  lemma {:induction false} CanReportAll<S(!new), I(!new), O(!new)>(c: Setup<S, I, O>, s: State, k: nat) returns (info: seq<seq<seq<nat>>>)
    requires k <= |s.longest| && forall i :: 0 <= i < k ==> s.longest[i].Some?
    ensures |info| == k && forall i :: 0 <= i < k ==> Reports(info[i], s.longest[i])
  {
    if k == 0 {
      info := [];
    } else {
      info := CanReportAll(c, s, k - 1);
      var longest := s.longest[k - 1].value;
      var order := CanReport(longest, |longest|);
      assert longest[..|longest|] == longest;
      assert Reports(Contents(order), s.longest[k - 1]);
      info := info + [Contents(order)];
    }
  }

  /** With a partition to check or a timeout to wait for, a driver that has not reported can always move: a search
      that is still running has an answer to give, and no result is waited for that will not come. With a partition
      the timeout is not needed for that. */
  lemma NoDeadlock<S(!new), I(!new), O(!new)>(c: Setup<S, I, O>, states: seq<State>, steps: seq<Step>)
    requires Run(c, states, steps) && (c.parts != [] || c.hasTimeout) && !states[|steps|].driver.Finished?
    ensures CanStep(c, states[|steps|]) && (c.parts != [] ==> MovesInTime(c, states[|steps|]))
  {
    InvRun(c, states, steps);
    var s := states[|steps|];
    if i: nat :| i < |s.workers| && s.workers[i].Searching? {
      SearcherMoves(c, s, i);
    } else if i: nat :| i < |s.workers| && s.workers[i].Wrote? {
      var s' := s.(workers := s.workers[i := Sent(s.workers[i].ok, s.workers[i].killed)],
                   channel := s.channel + [s.workers[i].ok], order := s.order + [i]);
      assert Next(c, s, Send(i), s');
    } else {
      DriverMoves(c, s);
    }
  }

  /** As long as the driver collects results, a configured timeout can strike, and then the workers are told to stop. */
  lemma TimeoutCanStrike<S(!new), I(!new), O(!new)>(c: Setup<S, I, O>, states: seq<State>, steps: seq<Step>) returns (s': State)
    requires Run(c, states, steps) && c.hasTimeout && states[|steps|].driver.Looping?
    ensures Run(c, states + [s'], steps + [Timeout]) && s'.kill && s'.driver.Draining?
  {
    InvRun(c, states, steps);
    s' := states[|steps|].(timedOut := true, kill := true, driver := Draining);
    RunExtends(c, states, steps, Timeout, s');
  }

  lemma SearcherMoves<S(!new), I(!new), O(!new)>(c: Setup<S, I, O>, s: State, i: nat)
    requires ParallelInv(c, s) && i < |s.workers| && s.workers[i].Searching?
    ensures CanStep(c, s) && MovesInTime(c, s)
  {
    var ok, found := OutcomeExists(c.model, c.parts[i], c.computeInfo);
    hide Outcome;
    var s' := s.(workers := s.workers[i := Wrote(ok, false)], longest := s.longest[i := Some(found)]);
    assert Next(c, s, Write(i, ok, false, found), s');
  }

  lemma DriverMoves<S(!new), I(!new), O(!new)>(c: Setup<S, I, O>, s: State)
    requires ParallelInv(c, s) && (c.parts != [] || c.hasTimeout) && !s.driver.Finished?
    requires forall i :: 0 <= i < |s.workers| ==> s.workers[i].Sent?
    ensures CanStep(c, s) && (c.parts != [] ==> MovesInTime(c, s))
  {
    var n := |c.parts|;
    EverySent(c, s);
    if s.driver.Draining? && (c.computeInfo ==> s.count >= n) {
      forall i | 0 <= i < n ensures s.longest[i].Some? { assert WorkerOk(c, s, i); }
      var info := CanReportAll(c, s, if c.computeInfo then n else 0);
      hide Outcome, Reports;
      assert Next(c, s, Report(info), s.(driver := Finished(Verdict(s.ok, s.timedOut), info)));
    } else if s.driver.Draining? {
      assert Next(c, s, Drain, s.(channel := s.channel[1..], count := s.count + 1));
    } else if n == 0 {
      assert Next(c, s, Timeout, s.(timedOut := true, kill := true, driver := Draining));
    } else {
      var ok := s.ok && s.channel[0];
      var t := s.(channel := s.channel[1..], count := s.count + 1, ok := ok);
      var s' := if !ok && !c.computeInfo then t.(kill := true, driver := Draining)
                else if s.count + 1 >= n then t.(driver := Draining)
                else t;
      assert Next(c, s, Receive, s');
    }
  }

  /** Every unfinished run can go on if and only if there is a partition to check or a timeout to wait for. */
  lemma AlwaysMoves<S(!new), I(!new), O(!new)>(c: Setup<S, I, O>)
    ensures (forall states: seq<State>, steps: seq<Step> :: Run(c, states, steps) && !states[|steps|].driver.Finished? ==> CanStep(c, states[|steps|])) <==>
            c.parts != [] || c.hasTimeout
  {
    if c.parts != [] || c.hasTimeout {
      forall states: seq<State>, steps: seq<Step> | Run(c, states, steps) && !states[|steps|].driver.Finished? ensures CanStep(c, states[|steps|]) {
        NoDeadlock(c, states, steps);
      }
    } else {
      var s := State([], [], [], false, true, false, 0, Looping, []);
      assert Init(c, s);
      assert Run(c, [s], []);
      assert !CanStep(c, [s][0]);
    }
  }

  /** Then every run can be continued until it reports, and with a partition without waiting for the timeout. */
  lemma {:induction false} Completes<S(!new), I(!new), O(!new)>(c: Setup<S, I, O>, states: seq<State>, steps: seq<Step>)
    returns (states': seq<State>, steps': seq<Step>)
    requires Run(c, states, steps) && (c.parts != [] || c.hasTimeout)
    ensures Run(c, states', steps') && states <= states' && steps <= steps' && states'[|steps'|].driver.Finished?
    ensures c.parts != [] && TimesOut(steps') ==> TimesOut(steps)
    decreases Remaining(states[|steps|])
  {
    var s := states[|steps|];
    if s.driver.Finished? {
      states', steps' := states, steps;
    } else {
      NoDeadlock(c, states, steps);
      var step, s' :| Next(c, s, step, s') && (c.parts != [] ==> !step.Timeout?);
      StepsDecrease(c, s, step, s');
      RunExtends(c, states, steps, step, s');
      states', steps' := Completes(c, states + [s'], steps + [step]);
      if !step.Timeout? && TimesOut(steps + [step]) {
        var k :| 0 <= k < |steps + [step]| && (steps + [step])[k].Timeout?;
        assert steps[k].Timeout?;
      }
    }
  }

  lemma RunExtends<S(!new), I(!new), O(!new)>(c: Setup<S, I, O>, states: seq<State>, steps: seq<Step>, step: Step, s': State)
    requires Run(c, states, steps) && Next(c, states[|steps|], step, s')
    ensures Run(c, states + [s'], steps + [step])
  {
    var ss, ts := states + [s'], steps + [step];
    hide Next, Init;
    forall k | 0 <= k < |ts| ensures Next(c, ss[k], ts[k], ss[k + 1]) {
      if k < |steps| { assert Next(c, states[k], steps[k], states[k + 1]); }
    }
  }

  lemma EverySent<S(!new), I(!new), O(!new)>(c: Setup<S, I, O>, s: State)
    requires |s.workers| == |c.parts| && ChannelOk(c, s) && forall i :: 0 <= i < |s.workers| ==> s.workers[i].Sent?
    ensures s.count + |s.channel| == |c.parts|
  {
    CountIds(s.order, |c.parts|);
    assert AllIds(|c.parts|) <= Ids(s.order) by {
      forall i | i in AllIds(|c.parts|) ensures i in Ids(s.order) { assert s.workers[i].Sent?; }
    }
    assert Ids(s.order) <= AllIds(|c.parts|);
  }

  /** Without any partition no result ever arrives: only the timeout can end the wait, with Unknown, and without
      a timeout no run reports. */
  lemma NoPartitionsNoVerdict<S(!new), I(!new), O(!new)>(c: Setup<S, I, O>, states: seq<State>, steps: seq<Step>)
    requires Run(c, states, steps) && c.parts == []
    ensures var d := states[|steps|].driver;
            && (!c.hasTimeout ==> d == Looping)
            && (d.Finished? ==> d.result == Unknown)
  {
    InvRun(c, states, steps);
  }
}
