/** The simulated network between clients and replicated servers, together with the test
    harness that shuts servers down and restarts them, as a state machine. Every step is
    one critical section or channel operation of the program; delays, lost messages and
    the order of steps are arbitrary. */
module Labrpc {

  import opened Wrappers

  type EndName = nat
  type ServerName = nat
  type Bytes = seq<int>

  /** The handler of one request on its server. It applies the request to the server's log,
      saves the log, and only then returns; it never stops half way on its own. */
  datatype Handler = NotStarted | Started | Applied | Persisted | Returned(reply: Bytes)

  /** Where the network stands with one request. */
  datatype Phase =
    | Accepted
    | Unreachable
    | Selected
    | Waiting
    | Checking(reply: Option<Bytes>)
    | Answering(answer: Option<Bytes>)  // None is the failure answer
    | Answered(answer: Option<Bytes>)   // the client's Call has returned, true exactly for Some

  datatype Request = Request(end: EndName, phase: Phase, name: ServerName, server: nat, reliable: bool, reordering: bool,
                             handler: Handler, dispatched: nat, executed: nat, answered: nat)

  /** A running server: the persister it saves to and its log, a list of request ids. */
  datatype Instance = Instance(name: ServerName, persister: nat, log: seq<nat>)

  /** How far the harness is with shutting a server down or starting it. */
  datatype Admin = Up | Deleted | Down | Saved | Booted(instance: nat)

  datatype State = State(enabled: map<EndName, bool>, connections: map<EndName, ServerName>, servers: map<ServerName, nat>,
                         reliable: bool, reordering: bool, requests: seq<Request>, instances: seq<Instance>,
                         persisters: seq<seq<nat>>, saved: map<ServerName, nat>, admin: map<ServerName, Admin>)

  /** What can happen to one request: in the network ... */
  datatype Move =
    | ReadEndname
    | FailUnreachable
    | DropRequest
    | Dispatch
    | NoticeDead
    | TakeReply
    | FinalCheck(drop: bool)
    | Deliver
    // ... and in its handler
    | Apply
    | Persist
    | Return(reply: Bytes)

  datatype Step =
    | Send(end: EndName)
    | Refuse(end: EndName)  // the network has been torn down
    | Advance(r: nat, move: Move)
    // the harness
    | Reconfigure(enabled: map<EndName, bool>, connections: map<EndName, ServerName>, reliable: bool, reordering: bool)
    | DeleteServer(name: ServerName)
    | CopySaved(name: ServerName)
    | PrepareSaved(name: ServerName)
    | Boot(name: ServerName)
    | AddServer(name: ServerName)

  ghost predicate Init(s: State) {
    && s.servers == map[] && s.requests == [] && s.instances == [] && s.persisters == [] && s.saved == map[]
    && s.admin == map[]
  }

  /** isServerDead: the end is disabled, or the name does not stand for the same server any more. */
  predicate Dead(s: State, q: Request) {
    !(q.end in s.enabled && s.enabled[q.end]) || !(q.name in s.servers && s.servers[q.name] == q.server)
  }

  function NewRequest(end: EndName, phase: Phase): Request {
    Request(end, phase, 0, 0, true, false, NotStarted, 0, 0, if phase.Answered? then 1 else 0)
  }

  /** The request after a move, if the move is possible. */
  function Moved(s: State, q: Request, move: Move): Option<Request> {
    match move
    case ReadEndname =>
      if !q.phase.Accepted? then None
      else if q.end in s.enabled && s.enabled[q.end] && q.end in s.connections && s.connections[q.end] in s.servers then
        Some(q.(phase := Selected, name := s.connections[q.end], server := s.servers[s.connections[q.end]],
                reliable := s.reliable, reordering := s.reordering))
      else Some(q.(phase := Unreachable))
    case FailUnreachable => if q.phase.Unreachable? then Some(q.(phase := Answering(None))) else None
    case DropRequest => if q.phase.Selected? && !q.reliable then Some(q.(phase := Answering(None))) else None
    case Dispatch =>
      if q.phase.Selected? then Some(q.(phase := Waiting, handler := Started, dispatched := q.dispatched + 1)) else None
    case NoticeDead => if q.phase.Waiting? && Dead(s, q) then Some(q.(phase := Checking(None))) else None
    case TakeReply =>
      if q.phase.Waiting? && q.handler.Returned? then Some(q.(phase := Checking(Some(q.handler.reply)))) else None
    case FinalCheck(drop) =>
      if !q.phase.Checking? || (drop && q.reliable) then None
      else Some(q.(phase := Answering(if q.phase.reply.None? || Dead(s, q) || drop then None else q.phase.reply)))
    case Deliver =>
      if q.phase.Answering? then Some(q.(phase := Answered(q.phase.answer), answered := q.answered + 1)) else None
    case Apply => if q.handler.Started? then Some(q.(handler := Applied, executed := q.executed + 1)) else None
    case Persist => if q.handler.Applied? then Some(q.(handler := Persisted)) else None
    case Return(reply) => if q.handler.Persisted? then Some(q.(handler := Returned(reply))) else None
  }

  /** What a move does to the server it runs on: applying extends the log, persisting saves the log. */
  function InstancesAfter(s: State, r: nat, q: Request, move: Move): seq<Instance> {
    if move.Apply? && q.server < |s.instances| then
      var i := s.instances[q.server];
      s.instances[q.server := i.(log := i.log + [r])]
    else s.instances
  }

  function PersistersAfter(s: State, q: Request, move: Move): seq<seq<nat>> {
    if move.Persist? && q.server < |s.instances| && s.instances[q.server].persister < |s.persisters| then
      var i := s.instances[q.server];
      s.persisters[i.persister := i.log]
    else s.persisters
  }

  ghost predicate RequestStep(s: State, r: nat, move: Move, s': State) {
    && r < |s.requests|
    && var q := s.requests[r];
       && Moved(s, q, move).Some?
       && s' == s.(requests := s.requests[r := Moved(s, q, move).value],
                   instances := InstancesAfter(s, r, q, move), persisters := PersistersAfter(s, q, move))
  }

  function AdminOf(s: State, name: ServerName): Admin { if name in s.admin then s.admin[name] else Down }

  /** Copies the saved persister of a server, or makes an empty one if there is none yet. */
  function WithCopy(s: State, name: ServerName): State
    requires name in s.saved ==> s.saved[name] < |s.persisters|
  {
    var content := if name in s.saved then s.persisters[s.saved[name]] else [];
    s.(persisters := s.persisters + [content], saved := s.saved[name := |s.persisters|])
  }

  /** A new instance of the server starts from what its persister holds. */
  ghost predicate Boots(s: State, n: ServerName, s': State) {
    && AdminOf(s, n).Saved? && n in s.saved && s.saved[n] < |s.persisters|
    && s' == s.(instances := s.instances + [Instance(n, s.saved[n], s.persisters[s.saved[n]])],
                admin := s.admin[n := Booted(|s.instances|)])
  }

  /** The steps of the harness: ShutdownServer is DeleteServer then CopySaved, StartServer is PrepareSaved,
      Boot, AddServer. A server is shut down before it is started again. */
  ghost predicate HarnessStep(s: State, step: Step, s': State) {
    match step
    case Reconfigure(enabled, connections, reliable, reordering) =>
      s' == s.(enabled := enabled, connections := connections, reliable := reliable, reordering := reordering)
    case DeleteServer(n) =>
      && (AdminOf(s, n).Up? || AdminOf(s, n).Down?)
      && s' == s.(servers := s.servers - {n}, admin := s.admin[n := Deleted])
    case CopySaved(n) =>
      && AdminOf(s, n).Deleted? && (n in s.saved ==> s.saved[n] < |s.persisters|)
      && s' == (if n in s.saved then WithCopy(s, n) else s).(admin := s.admin[n := Down])
    case PrepareSaved(n) =>
      && AdminOf(s, n).Down? && (n in s.saved ==> s.saved[n] < |s.persisters|)
      && s' == WithCopy(s, n).(admin := s.admin[n := Saved])
    case Boot(n) => Boots(s, n, s')
    case AddServer(n) =>
      && AdminOf(s, n).Booted?
      && s' == s.(servers := s.servers[n := AdminOf(s, n).instance], admin := s.admin[n := Up])
    case _ => false
  }

  ghost predicate Next(s: State, step: Step, s': State) {
    match step
    case Send(end) => s' == s.(requests := s.requests + [NewRequest(end, Accepted)])
    case Refuse(end) => s' == s.(requests := s.requests + [NewRequest(end, Answered(None))])
    case Advance(r, move) => RequestStep(s, r, move, s')
    case _ => HarnessStep(s, step, s')
  }

  ghost predicate Run(states: seq<State>, steps: seq<Step>) {
    && |states| == |steps| + 1 && Init(states[0])
    && forall k :: 0 <= k < |steps| ==> Next(states[k], steps[k], states[k + 1])
  }

  // ---------------------------------------------------------------------------------
  // Each request by itself

  /** The request counters agree with where network and handler stand. */
  ghost predicate RequestOk(q: Request) {
    && q.dispatched == (if q.handler.NotStarted? then 0 else 1)
    && q.executed == (if q.handler.NotStarted? || q.handler.Started? then 0 else 1)
    && q.answered == (if q.phase.Answered? then 1 else 0)
    && (q.phase.Accepted? || q.phase.Unreachable? || q.phase.Selected? ==> q.handler.NotStarted?)
    && (q.phase.Waiting? || q.phase.Checking? ==> !q.handler.NotStarted?)
    && (q.phase.Checking? && q.phase.reply.Some? ==> q.handler == Returned(q.phase.reply.value))
    && ((q.phase.Answering? || q.phase.Answered?) && q.phase.answer.Some? ==> q.handler == Returned(q.phase.answer.value))
  }

  ghost predicate RequestsOk(s: State) {
    forall r :: 0 <= r < |s.requests| ==> RequestOk(s.requests[r])
  }

  lemma MoveKept(s: State, q: Request, move: Move)
    requires RequestOk(q) && Moved(s, q, move).Some?
    ensures RequestOk(Moved(s, q, move).value)
  {
  }

  lemma RequestsKept(s: State, step: Step, s': State)
    requires RequestsOk(s) && Next(s, step, s')
    ensures RequestsOk(s')
  {
    if step.Advance? {
      MoveKept(s, s.requests[step.r], step.move);
    } else if step.Send? {
      assert RequestOk(NewRequest(step.end, Accepted));
    } else if step.Refuse? {
      assert RequestOk(NewRequest(step.end, Answered(None)));
    }
    hide Moved, RequestOk, InstancesAfter, PersistersAfter;
  }

  // ---------------------------------------------------------------------------------
  // Servers and persisters

  /** Every persister serves at most one server instance, and holds what that instance last saved. */
  ghost predicate InstancesOk(s: State) {
    && (forall i :: 0 <= i < |s.instances| ==>
          s.instances[i].persister < |s.persisters| && s.persisters[s.instances[i].persister] <= s.instances[i].log)
    && (forall i, j :: 0 <= i < j < |s.instances| ==> s.instances[i].persister != s.instances[j].persister)
  }

  ghost predicate Unowned(s: State, p: nat) {
    forall i :: 0 <= i < |s.instances| ==> s.instances[i].persister != p
  }

  ghost predicate SavedOk(s: State) {
    && (forall n :: n in s.saved ==> s.saved[n] < |s.persisters|)
    && (forall n, n' :: n in s.saved && n' in s.saved && s.saved[n] == s.saved[n'] ==> n == n')
  }

  /** `i` is the instance of server `n` that saves to the current persister of `n`. */
  ghost predicate Current(s: State, n: ServerName, i: nat) {
    i < |s.instances| && s.instances[i].name == n && n in s.saved && s.saved[n] == s.instances[i].persister
  }

  /** While a server is registered, its persister is not superseded: this is what deleting before copying buys. */
  ghost predicate AdminOk(s: State) {
    && (forall n :: AdminOf(s, n).Saved? ==> n in s.saved && Unowned(s, s.saved[n]))
    && (forall n :: AdminOf(s, n).Booted? ==> Current(s, n, AdminOf(s, n).instance))
    && (forall n :: n in s.servers ==> AdminOf(s, n).Up? && Current(s, n, s.servers[n]))
  }

  ghost predicate Positive(q: Request) {
    (q.phase.Answering? || q.phase.Answered?) && q.phase.answer.Some?
  }

  /** A request knows its server, an applied request is in that server's log, a persisted one in its persister, and a
      positively answered one in whatever persister the server's name stands for now. */
  ghost predicate WriteOk(s: State, r: nat)
    requires r < |s.requests|
  {
    var q := s.requests[r];
    && (q.phase.Selected? || !q.handler.NotStarted? ==> q.server < |s.instances| && s.instances[q.server].name == q.name)
    && (q.handler.Applied? ==> r in s.instances[q.server].log)
    && (q.handler.Persisted? || q.handler.Returned? ==>
          s.instances[q.server].persister < |s.persisters| && r in s.persisters[s.instances[q.server].persister])
    && (Positive(q) ==> q.name in s.saved && s.saved[q.name] < |s.persisters| && r in s.persisters[s.saved[q.name]])
  }

  ghost predicate NetInv(s: State) {
    && RequestsOk(s) && ServersOk(s)
    && forall r :: 0 <= r < |s.requests| ==> WriteOk(s, r)
  }

  /** Persisters only grow, and superseding one copies it. */
  ghost predicate Grows(s: State, s': State) {
    && |s.instances| <= |s'.instances| && |s.persisters| <= |s'.persisters|
    && (forall i :: 0 <= i < |s.instances| ==>
          && s'.instances[i].name == s.instances[i].name && s'.instances[i].persister == s.instances[i].persister
          && s.instances[i].log <= s'.instances[i].log)
    && (forall p :: 0 <= p < |s.persisters| ==> s.persisters[p] <= s'.persisters[p])
    && (forall n :: n in s.saved && s.saved[n] < |s.persisters| ==>
          n in s'.saved && s'.saved[n] < |s'.persisters| && s.persisters[s.saved[n]] <= s'.persisters[s'.saved[n]])
  }

  lemma WriteKept(s: State, s': State, r: nat)
    requires r < |s.requests| && r < |s'.requests| && s'.requests[r] == s.requests[r]
    requires WriteOk(s, r) && Grows(s, s')
    ensures WriteOk(s', r)
  {
  }

  // ---------------------------------------------------------------------------------
  // Steps of the harness

  ghost predicate ServersOk(s: State) { InstancesOk(s) && SavedOk(s) && AdminOk(s) }

  /** Requests, names and settings may change freely: servers and persisters are the same. */
  lemma SameServers(s: State, s': State)
    requires ServersOk(s)
    requires s'.instances == s.instances && s'.persisters == s.persisters && s'.saved == s.saved
    requires s'.servers == s.servers && s'.admin == s.admin
    ensures ServersOk(s') && Grows(s, s')
  {
    assert forall n :: AdminOf(s', n) == AdminOf(s, n);
    assert forall n, i: nat :: Current(s', n, i) <==> Current(s, n, i);
    assert forall p: nat :: Unowned(s', p) <==> Unowned(s, p);
    hide AdminOf, Current, Unowned;
  }

  lemma DeleteKept(s: State, n: ServerName, s': State)
    requires ServersOk(s) && HarnessStep(s, DeleteServer(n), s')
    ensures ServersOk(s') && Grows(s, s')
  {
    assert forall n' :: n' != n ==> AdminOf(s', n') == AdminOf(s, n');
    assert AdminOf(s', n) == Deleted;
    assert forall n', i: nat :: Current(s', n', i) <==> Current(s, n', i);
    assert forall p: nat :: Unowned(s', p) <==> Unowned(s, p);
    hide AdminOf, Current, Unowned;
  }

  lemma CopyGrows(s: State, n: ServerName, s': State)
    requires InstancesOk(s) && SavedOk(s) && s' == WithCopy(s, n).(admin := s'.admin)
    ensures InstancesOk(s') && SavedOk(s') && Grows(s, s')
    ensures n in s'.saved && Unowned(s', s'.saved[n])
    ensures forall n', i: nat :: n' != n && Current(s, n', i) ==> Current(s', n', i)
    ensures forall n' :: n' != n && n' in s.saved && Unowned(s, s.saved[n']) ==> Unowned(s', s'.saved[n'])
  {
    assert forall p :: 0 <= p < |s.persisters| ==> s'.persisters[p] == s.persisters[p];
  }

  lemma CopyKept(s: State, n: ServerName, s': State)
    requires ServersOk(s) && s' == WithCopy(s, n).(admin := s'.admin) && n !in s.servers
    requires forall n' :: n' != n ==> AdminOf(s', n') == AdminOf(s, n')
    requires AdminOf(s', n).Saved? || AdminOf(s', n).Down?
    ensures ServersOk(s') && Grows(s, s')
  {
    hide AdminOf, Current, Unowned, InstancesOk, SavedOk, Grows;
    CopyGrows(s, n, s');
  }

  lemma BootInstances(s: State, n: ServerName, s': State)
    requires ServersOk(s) && Boots(s, n, s')
    ensures InstancesOk(s') && SavedOk(s') && Grows(s, s') && Current(s', n, |s.instances|)
    ensures forall n', i: nat :: Current(s, n', i) ==> Current(s', n', i)
    ensures forall n' :: n' != n && n' in s.saved && Unowned(s, s.saved[n']) ==> Unowned(s', s'.saved[n'])
  {
    assert Unowned(s, s.saved[n]);
    assert forall i :: 0 <= i < |s.instances| ==> s'.instances[i] == s.instances[i];
  }

  lemma BootKept(s: State, n: ServerName, s': State)
    requires ServersOk(s) && Boots(s, n, s')
    ensures ServersOk(s') && Grows(s, s')
  {
    assert forall n' :: n' != n ==> AdminOf(s', n') == AdminOf(s, n');
    assert AdminOf(s', n) == Booted(|s.instances|) && n !in s.servers;
    BootInstances(s, n, s');
    hide AdminOf, Current, Unowned, InstancesOk, SavedOk, Grows;
  }

  lemma AddKept(s: State, n: ServerName, s': State)
    requires ServersOk(s) && HarnessStep(s, AddServer(n), s')
    ensures ServersOk(s') && Grows(s, s')
  {
    assert forall n' :: n' != n ==> AdminOf(s', n') == AdminOf(s, n');
    assert AdminOf(s', n) == Up;
    assert forall n', i: nat :: Current(s', n', i) <==> Current(s, n', i);
    assert forall p: nat :: Unowned(s', p) <==> Unowned(s, p);
    hide AdminOf, Current, Unowned;
  }

  lemma HarnessKept(s: State, step: Step, s': State)
    requires ServersOk(s) && HarnessStep(s, step, s')
    ensures ServersOk(s') && Grows(s, s') && s'.requests == s.requests
  {
    hide InstancesOk, SavedOk, Grows;
    match step
    case Reconfigure(_, _, _, _) => SameServers(s, s');
    case DeleteServer(n) => DeleteKept(s, n, s');
    case CopySaved(n) =>
      if n in s.saved {
        CopyKept(s, n, s');
      } else {
        DownKept(s, n, s');
      }
    case PrepareSaved(n) => CopyKept(s, n, s');
    case Boot(n) => BootKept(s, n, s');
    case AddServer(n) => AddKept(s, n, s');
  }

  lemma DownKept(s: State, n: ServerName, s': State)
    requires ServersOk(s) && AdminOf(s, n).Deleted? && s' == s.(admin := s.admin[n := Down])
    ensures ServersOk(s') && Grows(s, s')
  {
    assert forall n' :: n' != n ==> AdminOf(s', n') == AdminOf(s, n');
    assert AdminOf(s', n) == Down;
    assert forall n', i: nat :: Current(s', n', i) <==> Current(s, n', i);
    assert forall p: nat :: Unowned(s', p) <==> Unowned(s, p);
    hide AdminOf, Current, Unowned;
  }

  // ---------------------------------------------------------------------------------
  // Steps of one request

  lemma MoveInstances(s: State, r: nat, move: Move, s': State)
    requires InstancesOk(s) && SavedOk(s) && RequestStep(s, r, move, s')
    ensures InstancesOk(s') && SavedOk(s') && Grows(s, s')
    ensures forall n, i: nat :: Current(s', n, i) <==> Current(s, n, i)
    ensures forall p: nat :: Unowned(s', p) <==> Unowned(s, p)
  {
    hide Moved;
    assert |s'.instances| == |s.instances| && |s'.persisters| == |s.persisters|;
    assert forall i :: 0 <= i < |s.instances| ==>
      s'.instances[i].name == s.instances[i].name && s'.instances[i].persister == s.instances[i].persister
      && s.instances[i].log <= s'.instances[i].log;
  }

  lemma MoveGrows(s: State, r: nat, move: Move, s': State)
    requires ServersOk(s) && RequestStep(s, r, move, s')
    ensures ServersOk(s') && Grows(s, s')
  {
    MoveInstances(s, r, move, s');
    assert forall n :: AdminOf(s', n) == AdminOf(s, n);
    hide AdminOf, Current, Unowned, InstancesOk, SavedOk, Grows, Moved, InstancesAfter, PersistersAfter;
  }

  lemma ReadWrites(s: State, r: nat, s': State)
    requires NetInv(s) && RequestStep(s, r, ReadEndname, s')
    ensures WriteOk(s', r)
  {
    var q := s.requests[r];
    assert WriteOk(s, r) && RequestOk(q);
    if q.end in s.connections && s.connections[q.end] in s.servers {
      assert Current(s, s.connections[q.end], s.servers[s.connections[q.end]]);
    }
    hide AdminOk, InstancesOk, SavedOk;
  }

  lemma FinalWrites(s: State, r: nat, drop: bool, s': State)
    requires NetInv(s) && RequestStep(s, r, FinalCheck(drop), s')
    ensures WriteOk(s', r)
  {
    var q := s.requests[r];
    assert WriteOk(s, r) && RequestOk(q);
    if !Dead(s, q) { AnswerIsSaved(s, q); }
    hide AdminOk, InstancesOk, SavedOk;
  }

  lemma HandlerWrites(s: State, r: nat, move: Move, s': State)
    requires NetInv(s) && RequestStep(s, r, move, s') && (move.Apply? || move.Persist? || move.Return?)
    ensures WriteOk(s', r)
  {
    var q := s.requests[r];
    assert WriteOk(s, r) && RequestOk(q);
    assert s.instances[q.server].persister < |s.persisters|;
    hide AdminOk, SavedOk, InstancesOk;
    assert !Positive(q);
  }

  lemma MoveWrites(s: State, r: nat, move: Move, s': State)
    requires NetInv(s) && RequestStep(s, r, move, s')
    ensures WriteOk(s', r)
  {
    match move
    case ReadEndname => ReadWrites(s, r, s');
    case FinalCheck(drop) => FinalWrites(s, r, drop, s');
    case Apply => HandlerWrites(s, r, move, s');
    case Persist => HandlerWrites(s, r, move, s');
    case Return(_) => HandlerWrites(s, r, move, s');
    case _ =>
      assert WriteOk(s, r) && RequestOk(s.requests[r]);
      hide AdminOk, SavedOk, InstancesOk;
  }

  /** The server of a live request saves to the persister its name stands for. */
  lemma AnswerIsSaved(s: State, q: Request)
    requires AdminOk(s) && !Dead(s, q)
    ensures q.server < |s.instances| && q.name in s.saved && s.saved[q.name] == s.instances[q.server].persister
  {
    assert Current(s, q.name, s.servers[q.name]);
  }

  lemma InvNext(s: State, step: Step, s': State)
    requires NetInv(s) && Next(s, step, s')
    ensures NetInv(s')
  {
    RequestsKept(s, step, s');
    hide ServersOk, WriteOk, Grows, Moved, InstancesAfter, PersistersAfter, RequestsOk;
    if step.Advance? {
      MoveGrows(s, step.r, step.move, s');
      MoveWrites(s, step.r, step.move, s');
      forall x | 0 <= x < |s'.requests| ensures WriteOk(s', x) {
        if x != step.r { WriteKept(s, s', x); }
      }
    } else if step.Send? || step.Refuse? {
      SameServers(s, s');
      forall x | 0 <= x < |s'.requests| ensures WriteOk(s', x) {
        if x < |s.requests| { WriteKept(s, s', x); } else { NewWrite(s', x); }
      }
    } else {
      HarnessKept(s, step, s');
      forall x | 0 <= x < |s'.requests| ensures WriteOk(s', x) {
        WriteKept(s, s', x);
      }
    }
  }

  lemma NewWrite(s: State, r: nat)
    requires r < |s.requests| && s.requests[r].handler.NotStarted? && !s.requests[r].phase.Selected? && !Positive(s.requests[r])
    ensures WriteOk(s, r)
  {
  }

  // ---------------------------------------------------------------------------------
  // Effects

  ghost predicate Executed(s: State, r: nat) {
    r < |s.requests| && !s.requests[r].handler.NotStarted? && !s.requests[r].handler.Started?
  }

  /** A log holds executed requests, each at most once. */
  ghost predicate LogOk(s: State, log: seq<nat>) {
    && (forall x :: x in log ==> Executed(s, x))
    && (forall i, j :: 0 <= i < j < |log| ==> log[i] != log[j])
  }

  ghost predicate LogsOk(s: State) {
    && (forall i :: 0 <= i < |s.instances| ==> LogOk(s, s.instances[i].log))
    && (forall p :: 0 <= p < |s.persisters| ==> LogOk(s, s.persisters[p]))
  }

  lemma ExecutedStays(s: State, step: Step, s': State, log: seq<nat>)
    requires RequestsOk(s) && Next(s, step, s') && LogOk(s, log)
    ensures LogOk(s', log)
  {
    hide InstancesAfter, PersistersAfter;
    forall x | x in log ensures Executed(s', x) {
      assert Executed(s, x) && RequestOk(s.requests[x]);
    }
  }

  lemma ApplyLog(s: State, r: nat, s': State, log: seq<nat>)
    requires RequestsOk(s) && RequestStep(s, r, Apply, s') && LogOk(s, log)
    ensures LogOk(s', log + [r])
  {
    ExecutedStays(s, Advance(r, Apply), s', log);
    assert !Executed(s, r) && Executed(s', r);
    hide Moved, InstancesAfter, PersistersAfter;
  }

  lemma LogsKept(s: State, step: Step, s': State)
    requires RequestsOk(s) && LogsOk(s) && Next(s, step, s')
    ensures LogsOk(s')
  {
    forall i | 0 <= i < |s'.instances| ensures LogOk(s', s'.instances[i].log) {
      InstanceLogKept(s, step, s', i);
    }
    forall p | 0 <= p < |s'.persisters| ensures LogOk(s', s'.persisters[p]) {
      PersisterLogKept(s, step, s', p);
    }
  }

  lemma InstanceLogKept(s: State, step: Step, s': State, i: nat)
    requires RequestsOk(s) && LogsOk(s) && Next(s, step, s') && i < |s'.instances|
    ensures LogOk(s', s'.instances[i].log)
  {
    if step.Advance? && step.move.Apply? && i == s.requests[step.r].server && i < |s.instances| {
      ApplyLog(s, step.r, s', s.instances[i].log);
    } else if i < |s.instances| {
      assert s'.instances[i].log == s.instances[i].log;
      ExecutedStays(s, step, s', s.instances[i].log);
    } else {
      assert step.Boot?;
      ExecutedStays(s, step, s', s.persisters[s.saved[step.name]]);
    }
  }

  lemma PersisterLogKept(s: State, step: Step, s': State, p: nat)
    requires RequestsOk(s) && LogsOk(s) && Next(s, step, s') && p < |s'.persisters|
    ensures LogOk(s', s'.persisters[p])
  {
    if p < |s.persisters| && s'.persisters[p] == s.persisters[p] {
      ExecutedStays(s, step, s', s.persisters[p]);
    } else if step.Advance? {
      ExecutedStays(s, step, s', s.instances[s.requests[step.r].server].log);
    } else if step.name in s.saved {
      ExecutedStays(s, step, s', s.persisters[s.saved[step.name]]);
    } else {
      assert s'.persisters[p] == [];
    }
  }

  // ---------------------------------------------------------------------------------
  // Whole runs

  lemma {:induction false} InvRun(states: seq<State>, steps: seq<Step>, k: nat)
    requires Run(states, steps) && k < |states|
    ensures NetInv(states[k]) && LogsOk(states[k])
  {
    hide Next;
    if k > 0 {
      InvRun(states, steps, k - 1);
      assert Next(states[k - 1], steps[k - 1], states[k]);
      InvNext(states[k - 1], steps[k - 1], states[k]);
      LogsKept(states[k - 1], steps[k - 1], states[k]);
    }
  }

  /** Over every run a request is dispatched, executed and answered at most once. A Call that returned true was
      executed exactly once and got the very reply its handler returned; one that returned false may have been
      executed or not. No server log ever holds a request twice. */
  lemma AtMostOnce(states: seq<State>, steps: seq<Step>, k: nat, r: nat)
    requires Run(states, steps) && k < |states| && r < |states[k].requests|
    ensures var q := states[k].requests[r];
            && q.dispatched <= 1 && q.executed <= q.dispatched && q.answered <= 1
            && (q.answered == 1 <==> q.phase.Answered?)
            && (q.phase.Answered? && q.phase.answer.Some? ==>
                  q.dispatched == 1 && q.executed == 1 && q.handler == Returned(q.phase.answer.value))
    ensures forall i :: 0 <= i < |states[k].instances| ==> LogOk(states[k], states[k].instances[i].log)
  {
    InvRun(states, steps, k);
    assert RequestOk(states[k].requests[r]);
  }

  lemma AnswerStaysNext(s: State, step: Step, s': State, r: nat)
    requires Next(s, step, s') && r < |s.requests| && s.requests[r].phase.Answered?
    ensures r < |s'.requests|
    ensures s'.requests[r].phase == s.requests[r].phase && s'.requests[r].name == s.requests[r].name
  {
    hide InstancesAfter, PersistersAfter;
  }

  /** What a Call returned stays what it is, and so does the server it went to. */
  lemma {:induction false} AnswerStays(states: seq<State>, steps: seq<Step>, k: nat, j: nat, r: nat)
    requires Run(states, steps) && k <= j < |states| && r < |states[k].requests| && states[k].requests[r].phase.Answered?
    ensures r < |states[j].requests|
    ensures states[j].requests[r].phase == states[k].requests[r].phase && states[j].requests[r].name == states[k].requests[r].name
  {
    hide Next, Init;
    if k < j {
      AnswerStays(states, steps, k, j - 1, r);
      assert Next(states[j - 1], steps[j - 1], states[j]);
      AnswerStaysNext(states[j - 1], steps[j - 1], states[j], r);
    }
  }

  /** Acknowledged writes survive: once a Call has returned true, its request is in the persister its server's name
      stands for, and in the log of whatever instance is registered under that name, from then on and across any
      number of shutdowns and restarts. */
  lemma AcknowledgedSurvives(states: seq<State>, steps: seq<Step>, k: nat, j: nat, r: nat)
    requires Run(states, steps) && k <= j < |states| && r < |states[k].requests|
    requires states[k].requests[r].phase.Answered? && states[k].requests[r].phase.answer.Some?
    ensures var s, n := states[j], states[k].requests[r].name;
            && n in s.saved && s.saved[n] < |s.persisters| && r in s.persisters[s.saved[n]]
            && (n in s.servers ==> s.servers[n] < |s.instances| && r in s.instances[s.servers[n]].log)
  {
    AnswerStays(states, steps, k, j, r);
    InvRun(states, steps, j);
    var s, n := states[j], states[k].requests[r].name;
    assert WriteOk(s, r);
    if n in s.servers {
      assert Current(s, n, s.servers[n]);
      var i := s.instances[s.servers[n]];
      assert s.persisters[i.persister] <= i.log;
      assert forall x :: x in s.persisters[i.persister] ==> x in i.log;
    }
  }
}
