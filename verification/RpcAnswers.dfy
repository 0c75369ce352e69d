/** When a Call fails and when it can succeed: every failure has a cause in the run, and from
    every state of every run any server can be brought up and made to answer. */
module RpcAnswers {
  import opened Wrappers
  import opened Labrpc

  // ---------------------------------------------------------------------------------
  // Why a Call returns false

  ghost predicate EndEnabled(s: State, e: EndName) { e in s.enabled && s.enabled[e] }

  /** `step`, taken in `s`, is a reason for request `r` to fail: it is refused at teardown; its end is read while the
      network is unreliable or the end does not lead to a server; or its server turns out to be cut off or replaced. */
  ghost predicate Cause(s: State, step: Step, r: nat) {
    || (step.Refuse? && r == |s.requests|)
    || (step == Advance(r, ReadEndname) && r < |s.requests| &&
        var e := s.requests[r].end;
        !s.reliable || !EndEnabled(s, e) || e !in s.connections || s.connections[e] !in s.servers)
    || (step.Advance? && step.r == r && r < |s.requests| && (step.move.NoticeDead? || step.move.FinalCheck?) &&
        var q := s.requests[r];
        !EndEnabled(s, q.end) || q.name !in s.servers || s.servers[q.name] != q.server)
  }

  ghost predicate Caused(states: seq<State>, steps: seq<Step>, k: nat, r: nat)
    requires k <= |steps| && |states| == |steps| + 1
  {
    exists i :: 0 <= i < k && Cause(states[i], steps[i], r)
  }

  /** The request has failed, or it may. */
  ghost predicate Doomed(q: Request) {
    || q.phase.Unreachable? || !q.reliable
    || (q.phase.Checking? && q.phase.reply.None?)
    || ((q.phase.Answering? || q.phase.Answered?) && q.phase.answer.None?)
  }

  /** What a step does to request `r`: nothing, unless it is a move of `r` or brings it up. */
  lemma RequestAfter(s: State, step: Step, s': State, r: nat)
    requires Next(s, step, s') && r < |s'.requests|
    ensures || (r < |s.requests| && s'.requests[r] == s.requests[r])
            || (r < |s.requests| && step.Advance? && step.r == r && Moved(s, s.requests[r], step.move) == Some(s'.requests[r]))
            || (r == |s.requests| && step.Send? && s'.requests[r] == NewRequest(step.end, Accepted))
            || (r == |s.requests| && step.Refuse? && s'.requests[r] == NewRequest(step.end, Answered(None)))
  {
    hide Moved, InstancesAfter, PersistersAfter, NewRequest;
  }

  lemma DoomedNext(s: State, step: Step, s': State, r: nat)
    requires Next(s, step, s') && r < |s'.requests| && Doomed(s'.requests[r])
    ensures (r < |s.requests| && Doomed(s.requests[r])) || Cause(s, step, r)
  {
    RequestAfter(s, step, s', r);
    hide Next;
  }

  lemma {:induction false} DoomedHasCause(states: seq<State>, steps: seq<Step>, k: nat, r: nat)
    requires Run(states, steps) && k < |states| && r < |states[k].requests| && Doomed(states[k].requests[r])
    ensures Caused(states, steps, k, r)
  {
    hide Next, Doomed, Cause;
    if k > 0 {
      assert Next(states[k - 1], steps[k - 1], states[k]);
      DoomedNext(states[k - 1], steps[k - 1], states[k], r);
      if !Cause(states[k - 1], steps[k - 1], r) {
        DoomedHasCause(states, steps, k - 1, r);
        var i :| 0 <= i < k - 1 && Cause(states[i], steps[i], r);
      }
    }
  }

  /** A Call returns false only for a cause. */
  lemma FailureHasCause(states: seq<State>, steps: seq<Step>, k: nat, r: nat)
    requires Run(states, steps) && k < |states| && r < |states[k].requests| && states[k].requests[r].phase == Answered(None)
    ensures exists i :: 0 <= i < k && Cause(states[i], steps[i], r)
  {
    DoomedHasCause(states, steps, k, r);
  }

  // ---------------------------------------------------------------------------------
  // What a Call that returned true went through

  /** `step`, taken in `s`, reads the end of request `r`, which leads to this server. */
  ghost predicate Reads(s: State, step: Step, r: nat, name: ServerName, server: nat) {
    && step == Advance(r, ReadEndname) && r < |s.requests|
    && var e := s.requests[r].end;
       EndEnabled(s, e) && e in s.connections && s.connections[e] == name && name in s.servers && s.servers[name] == server
  }

  /** `step`, taken in `s`, finds the end of request `r` enabled and its server still in place. */
  ghost predicate Confirms(s: State, step: Step, r: nat, name: ServerName, server: nat) {
    && step == Advance(r, FinalCheck(false)) && r < |s.requests|
    && EndEnabled(s, s.requests[r].end) && name in s.servers && s.servers[name] == server
  }

  ghost predicate Underway(q: Request) {
    q.phase.Selected? || q.phase.Waiting? || q.phase.Checking? || Positive(q)
  }

  lemma UnderwayNext(s: State, step: Step, s': State, r: nat)
    requires Next(s, step, s') && r < |s'.requests|
    ensures var q := s'.requests[r];
            Underway(q) ==> Reads(s, step, r, q.name, q.server) ||
                            (r < |s.requests| && Underway(s.requests[r]) && s.requests[r].name == q.name && s.requests[r].server == q.server)
  {
    RequestAfter(s, step, s', r);
    hide Next;
  }

  lemma PositiveNext(s: State, step: Step, s': State, r: nat)
    requires Next(s, step, s') && r < |s'.requests|
    ensures var q := s'.requests[r];
            Positive(q) ==> Confirms(s, step, r, q.name, q.server) ||
                            (r < |s.requests| && Positive(s.requests[r]) && s.requests[r].name == q.name && s.requests[r].server == q.server)
  {
    RequestAfter(s, step, s', r);
    if r < |s.requests| && step.Advance? && step.r == r && s'.requests[r] != s.requests[r] && Positive(s'.requests[r]) {
      hide Next;
      PositiveMoved(s, s.requests[r], step.move, s'.requests[r]);
    }
    hide Next, Moved;
  }

  lemma PositiveMoved(s: State, q: Request, move: Move, q': Request)
    requires Moved(s, q, move) == Some(q') && Positive(q')
    ensures q'.name == q.name && q'.server == q.server
    ensures Positive(q) || (move == FinalCheck(false) && EndEnabled(s, q.end) && q.name in s.servers && s.servers[q.name] == q.server)
  {
  }

  /** A Call returns true only if its end led to a server when it was read, and if the end was still enabled and the
      name still stood for that server when the reply was in. */
  lemma {:induction false} SuccessWasServed(states: seq<State>, steps: seq<Step>, k: nat, r: nat)
    requires Run(states, steps) && k < |states| && r < |states[k].requests|
    ensures var q := states[k].requests[r];
            && (Underway(q) ==> exists i :: 0 <= i < k && Reads(states[i], steps[i], r, q.name, q.server))
            && (Positive(q) ==> exists i :: 0 <= i < k && Confirms(states[i], steps[i], r, q.name, q.server))
  {
    hide Next, Underway, Positive, Reads, Confirms;
    if k > 0 {
      assert Next(states[k - 1], steps[k - 1], states[k]);
      UnderwayNext(states[k - 1], steps[k - 1], states[k], r);
      PositiveNext(states[k - 1], steps[k - 1], states[k], r);
      if r < |states[k - 1].requests| { SuccessWasServed(states, steps, k - 1, r); }
    }
  }

  // ---------------------------------------------------------------------------------
  // A Call that is served can return true

  lemma RunExtends(states: seq<State>, steps: seq<Step>, step: Step, s': State)
    requires Run(states, steps) && Next(states[|steps|], step, s')
    ensures Run(states + [s'], steps + [step])
  {
    var ss, ts := states + [s'], steps + [step];
    hide Next, Init;
    forall k | 0 <= k < |ts| ensures Next(ss[k], ts[k], ss[k + 1]) {
      if k < |steps| { assert Next(states[k], steps[k], states[k + 1]); }
    }
  }

  /** The run after one more move of request `r`, which leaves the network as it is. */
  lemma MoveOn(states: seq<State>, steps: seq<Step>, r: nat, move: Move) returns (states': seq<State>, steps': seq<Step>)
    requires Run(states, steps) && r < |states[|steps|].requests|
    requires Moved(states[|steps|], states[|steps|].requests[r], move).Some?
    ensures Run(states', steps') && states <= states' && steps' == steps + [Advance(r, move)]
    ensures SameNetwork(states[|steps|], states'[|steps'|]) && r < |states'[|steps'|].requests|
    ensures states'[|steps'|].requests[r] == Moved(states[|steps|], states[|steps|].requests[r], move).value
  {
    var s := states[|steps|];
    var q := s.requests[r];
    var s' := s.(requests := s.requests[r := Moved(s, q, move).value],
                 instances := InstancesAfter(s, r, q, move), persisters := PersistersAfter(s, q, move));
    states', steps' := states + [s'], steps + [Advance(r, move)];
    hide Moved, InstancesAfter, PersistersAfter;
    RunExtends(states, steps, Advance(r, move), s');
  }

  ghost predicate SameNetwork(s: State, s': State) {
    s'.enabled == s.enabled && s'.connections == s.connections && s'.servers == s.servers && s'.reliable == s.reliable
  }

  /** The steps after the first `k` are moves of request `r`. */
  ghost predicate OnlyMoves(steps: seq<Step>, k: nat, r: nat) {
    forall i :: k <= i < |steps| ==> steps[i].Advance? && steps[i].r == r
  }

  ghost predicate Serves(s: State, e: EndName) {
    EndEnabled(s, e) && e in s.connections && s.connections[e] in s.servers
  }

  /** A request that has just been accepted, on a reliable network and an end that leads to a server, can get any reply
      its handler may return, by its own moves alone. */
  lemma CanAnswer(states: seq<State>, steps: seq<Step>, r: nat, b: Bytes) returns (states': seq<State>, steps': seq<Step>)
    requires Run(states, steps) && r < |states[|steps|].requests| && states[|steps|].requests[r].phase.Accepted?
    requires states[|steps|].reliable && Serves(states[|steps|], states[|steps|].requests[r].end)
    ensures Run(states', steps') && states <= states' && steps <= steps' && OnlyMoves(steps', |steps|, r)
    ensures r < |states'[|steps'|].requests| && states'[|steps'|].requests[r].phase == Answered(Some(b))
    ensures states'[|steps'|].requests[r].name == states[|steps|].connections[states[|steps|].requests[r].end]
  {
    InvRun(states, steps, |steps|);
    assert RequestOk(states[|steps|].requests[r]);
    hide Run, Moved;
    var states1, steps1 := CanHandle(states, steps, r, b);
    states', steps' := CanDeliver(states1, steps1, r, b);
  }

  /** The first half: the request is read, dispatched and handled. */
  lemma CanHandle(states: seq<State>, steps: seq<Step>, r: nat, b: Bytes) returns (states': seq<State>, steps': seq<Step>)
    requires Run(states, steps) && r < |states[|steps|].requests|
    requires states[|steps|].requests[r].phase.Accepted? && states[|steps|].requests[r].handler.NotStarted?
    requires Serves(states[|steps|], states[|steps|].requests[r].end)
    ensures Run(states', steps') && states <= states' && steps <= steps' && OnlyMoves(steps', |steps|, r)
    ensures SameNetwork(states[|steps|], states'[|steps'|]) && r < |states'[|steps'|].requests|
    ensures var s, q := states[|steps|], states'[|steps'|].requests[r];
            && q.end == s.requests[r].end && q.name == s.connections[q.end] && q.server == s.servers[q.name]
            && q.phase.Waiting? && q.handler == Returned(b) && q.reliable == s.reliable
  {
    hide Run;
    var states1, steps1 := MoveOn(states, steps, r, ReadEndname);
    var states2, steps2 := MoveOn(states1, steps1, r, Dispatch);
    var states3, steps3 := MoveOn(states2, steps2, r, Apply);
    var states4, steps4 := MoveOn(states3, steps3, r, Persist);
    states', steps' := MoveOn(states4, steps4, r, Return(b));
  }

  /** The second half: the reply is taken, the server is still there, and the answer is delivered. */
  lemma CanDeliver(states: seq<State>, steps: seq<Step>, r: nat, b: Bytes) returns (states': seq<State>, steps': seq<Step>)
    requires Run(states, steps) && r < |states[|steps|].requests|
    requires var s, q := states[|steps|], states[|steps|].requests[r];
             && q.phase.Waiting? && q.handler == Returned(b)
             && EndEnabled(s, q.end) && q.name in s.servers && s.servers[q.name] == q.server
    ensures Run(states', steps') && states <= states' && steps <= steps' && OnlyMoves(steps', |steps|, r)
    ensures r < |states'[|steps'|].requests| && states'[|steps'|].requests[r].phase == Answered(Some(b))
    ensures states'[|steps'|].requests[r].name == states[|steps|].requests[r].name
  {
    hide Run;
    var states1, steps1 := MoveOn(states, steps, r, TakeReply);
    var states2, steps2 := MoveOn(states1, steps1, r, FinalCheck(false));
    states', steps' := MoveOn(states2, steps2, r, Deliver);
  }

  /** On an unreliable network the request can get lost before it is executed, */
  lemma CanLoseRequest(states: seq<State>, steps: seq<Step>, r: nat) returns (states': seq<State>, steps': seq<Step>)
    requires Run(states, steps) && r < |states[|steps|].requests| && states[|steps|].requests[r].phase.Accepted?
    requires !states[|steps|].reliable && Serves(states[|steps|], states[|steps|].requests[r].end)
    ensures Run(states', steps') && states <= states' && steps <= steps' && OnlyMoves(steps', |steps|, r)
    ensures r < |states'[|steps'|].requests|
    ensures states'[|steps'|].requests[r].phase == Answered(None) && states'[|steps'|].requests[r].executed == 0
  {
    InvRun(states, steps, |steps|);
    assert RequestOk(states[|steps|].requests[r]);
    hide Run;
    var states1, steps1 := MoveOn(states, steps, r, ReadEndname);
    var states2, steps2 := MoveOn(states1, steps1, r, DropRequest);
    states', steps' := MoveOn(states2, steps2, r, Deliver);
  }

  /** and so can the reply, after it was. */
  lemma CanLoseReply(states: seq<State>, steps: seq<Step>, r: nat) returns (states': seq<State>, steps': seq<Step>)
    requires Run(states, steps) && r < |states[|steps|].requests| && states[|steps|].requests[r].phase.Accepted?
    requires !states[|steps|].reliable && Serves(states[|steps|], states[|steps|].requests[r].end)
    ensures Run(states', steps') && states <= states' && steps <= steps' && OnlyMoves(steps', |steps|, r)
    ensures r < |states'[|steps'|].requests|
    ensures states'[|steps'|].requests[r].phase == Answered(None) && states'[|steps'|].requests[r].executed == 1
  {
    InvRun(states, steps, |steps|);
    assert RequestOk(states[|steps|].requests[r]);
    hide Run;
    var states1, steps1 := CanHandle(states, steps, r, []);
    InvRun(states1, steps1, |steps1|);
    assert RequestOk(states1[|steps1|].requests[r]);
    states', steps' := CanDropReply(states1, steps1, r);
  }

  lemma CanDropReply(states: seq<State>, steps: seq<Step>, r: nat) returns (states': seq<State>, steps': seq<Step>)
    requires Run(states, steps) && r < |states[|steps|].requests|
    requires var q := states[|steps|].requests[r]; q.phase.Waiting? && q.handler.Returned? && !q.reliable
    ensures Run(states', steps') && states <= states' && steps <= steps' && OnlyMoves(steps', |steps|, r)
    ensures r < |states'[|steps'|].requests|
    ensures states'[|steps'|].requests[r].phase == Answered(None)
    ensures states'[|steps'|].requests[r].executed == states[|steps|].requests[r].executed
  {
    hide Run;
    var states1, steps1 := MoveOn(states, steps, r, TakeReply);
    var states2, steps2 := MoveOn(states1, steps1, r, FinalCheck(true));
    states', steps' := MoveOn(states2, steps2, r, Deliver);
  }

  // ---------------------------------------------------------------------------------
  // Every server can be brought up

  ghost predicate HarnessOf(step: Step, n: ServerName) {
    (step.DeleteServer? || step.CopySaved? || step.PrepareSaved? || step.Boot? || step.AddServer?) && step.name == n
  }

  ghost predicate OnlyHarness(steps: seq<Step>, k: nat, n: ServerName) {
    forall i :: k <= i < |steps| ==> HarnessOf(steps[i], n)
  }

  /** How many steps the harness has left until the server is registered. */
  function ToGo(admin: Admin): nat {
    match admin case Up => 5 case Deleted => 4 case Down => 3 case Saved => 2 case Booted(_) => 1
  }

  /** The harness step that is due for `n`, and what it leads to. */
  lemma NextHarness(s: State, n: ServerName) returns (step: Step, s': State)
    requires NetInv(s)
    ensures HarnessOf(step, n) && Next(s, step, s')
    ensures if AdminOf(s, n).Booted? then n in s'.servers else ToGo(AdminOf(s', n)) < ToGo(AdminOf(s, n))
  {
    match AdminOf(s, n)
    case Up =>
      step, s' := DeleteServer(n), s.(servers := s.servers - {n}, admin := s.admin[n := Deleted]);
    case Deleted =>
      step, s' := CopySaved(n), (if n in s.saved then WithCopy(s, n) else s).(admin := s.admin[n := Down]);
    case Down =>
      step, s' := PrepareSaved(n), WithCopy(s, n).(admin := s.admin[n := Saved]);
    case Saved =>
      step := Boot(n);
      s' := s.(instances := s.instances + [Instance(n, s.saved[n], s.persisters[s.saved[n]])],
               admin := s.admin[n := Booted(|s.instances|)]);
    case Booted(i) =>
      step, s' := AddServer(n), s.(servers := s.servers[n := i], admin := s.admin[n := Up]);
  }

  /** From every state of every run the harness can shut a server down, where it is up, and start it. */
  lemma {:induction false} Restarts(states: seq<State>, steps: seq<Step>, n: ServerName)
    returns (states': seq<State>, steps': seq<Step>)
    requires Run(states, steps)
    ensures Run(states', steps') && states <= states' && steps < steps' && OnlyHarness(steps', |steps|, n)
    ensures n in states'[|steps'|].servers
    decreases ToGo(AdminOf(states[|steps|], n))
  {
    InvRun(states, steps, |steps|);
    var s := states[|steps|];
    var step, s' := NextHarness(s, n);
    RunExtends(states, steps, step, s');
    hide Run, NetInv, LogsOk, Next;
    states', steps' := states + [s'], steps + [step];
    if !AdminOf(s, n).Booted? {
      states', steps' := Restarts(states', steps', n);
      assert steps'[|steps|] == step;
    }
  }

  /** Whatever has happened, a new Call to any server over any end can still return true with any reply, and then its
      request is saved. */
  lemma CallCanSucceed(states: seq<State>, steps: seq<Step>, n: ServerName, e: EndName, b: Bytes)
    returns (states': seq<State>, steps': seq<Step>, r: nat)
    requires Run(states, steps)
    ensures Run(states', steps') && states <= states' && steps <= steps'
    ensures |states[|steps|].requests| <= r < |states'[|steps'|].requests|
    ensures var s, q := states'[|steps'|], states'[|steps'|].requests[r];
            && q.end == e && q.name == n && q.phase == Answered(Some(b))
            && n in s.saved && s.saved[n] < |s.persisters| && r in s.persisters[s.saved[n]]
  {
    states', steps' := Restarts(states, steps, n);
    EndKept(states', steps', |steps|, |steps'|);
    var s := states'[|steps'|];
    var step := Reconfigure(s.enabled[e := true], s.connections[e := n], true, s.reordering);
    var s1 := s.(enabled := s.enabled[e := true], connections := s.connections[e := n], reliable := true);
    RunExtends(states', steps', step, s1);
    var s2 := s1.(requests := s1.requests + [NewRequest(e, Accepted)]);
    RunExtends(states' + [s1], steps' + [step], Send(e), s2);
    r := |s1.requests|;
    assert states[|steps|] == states'[|steps|];
    var states2, steps2 := states' + [s1] + [s2], steps' + [step] + [Send(e)];
    states', steps' := CanAnswer(states2, steps2, r, b);
    assert states'[|steps2|] == s2;
    EndKept(states', steps', |steps2|, |steps'|);
    AcknowledgedSurvives(states', steps', |steps'|, |steps'|, r);
  }

  /** Requests stay in the network's books, with their ends. */
  lemma EndKeptNext(s: State, step: Step, s': State)
    requires Next(s, step, s')
    ensures |s.requests| <= |s'.requests|
    ensures forall r :: 0 <= r < |s.requests| ==> s'.requests[r].end == s.requests[r].end
  {
    hide InstancesAfter, PersistersAfter;
  }

  lemma {:induction false} EndKept(states: seq<State>, steps: seq<Step>, k: nat, j: nat)
    requires Run(states, steps) && k <= j < |states|
    ensures |states[k].requests| <= |states[j].requests|
    ensures forall r :: 0 <= r < |states[k].requests| ==> states[j].requests[r].end == states[k].requests[r].end
  {
    hide Next, Init;
    if k < j {
      EndKept(states, steps, k, j - 1);
      assert Next(states[j - 1], steps[j - 1], states[j]);
      EndKeptNext(states[j - 1], steps[j - 1], states[j]);
    }
  }
}
