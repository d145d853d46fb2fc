/** The client's side of session routing: tasks that add PIDs over the pipe, notice that the server
    has lost a session, create it anew and replay the live PIDs, interleaved with one another and
    with the server's restarts. A step is one request served under the server's lock, or one
    segment of a task between two awaits. */
module IpcRecovery {
  import opened Wrappers
  import opened SessionRegistry
  import opened Text

  datatype Process = Process(pid: Pid, createdAt: int)

  datatype RoutingStatus = SessionCreated | Active | Failed | NeedsRestart | External

  /** What the client keeps of a launched session: the endpoint of its proxy, its live processes,
      and what its card shows. */
  datatype Client = Client(
    endpoint: string, live: seq<Process>, finished: bool, ipcManaged: bool, routing: RoutingStatus)

  /** Who adds the PID, which decides what the outcome does to the routing status. */
  datatype Origin =
    | TargetRoot  // root of a launched target
    | ExeRoot     // root of a launched executable or of an external process
    | Child       // merged child, or descendant of a launched target
    | Quiet       // descendant of an executable, attached external process
    | Manual      // the user's replay of a session's live children

  /** What the client gets back: the server's reply, or a transport error. */
  datatype Answer = Answered(reply: Reply) | Lost

  /** Where a request is lost, if it is. */
  datatype Loss = Delivered | LostBefore | LostAfter

  datatype Phase =
    | Opening | Opened(answer: Answer)
    | Adding | Added(answer: Answer)
    | Waiting
    | Creating | Created(answer: Answer)
    | Replaying(todo: seq<Process>, replayed: nat) | Replayed(answer: Answer, todo: seq<Process>, replayed: nat)
    | Retrying | Retried(answer: Answer)
    | Finished(ok: bool)

  datatype Task = Task(origin: Origin, id: string, process: Option<Process>, phase: Phase)

  /** `gates` are the sessions whose recovery lock is held. */
  datatype System = System(registry: Registry, clients: map<string, Client>, tasks: seq<Task>, gates: set<string>)

  datatype Step =
    | Send(task: nat, loss: Loss, associates: bool)
    | Resume(task: nat)
    | Acquire(task: nat)
    | Begin(start: Task)
    | Open(id: string, client: Client)
    | Change(id: string, live: seq<Process>, finished: bool)
    | Fail(id: string)
    | Apply(id: string, routing: RoutingStatus)
    | CloseDelivered(id: string)
    | Restart(proxies: map<string, ProxyHandle>)

  // ----- the steps -----

  function AddOf(id: string, p: Process, associates: bool): Request {
    AddPid(id, p.pid, p.createdAt, associates)
  }

  /** The request a task is about to send. */
  function Pending(t: Task, endpoint: string, associates: bool): Option<Request> {
    match t.phase
    case Opening => Some(CreateSession(t.id, endpoint))
    case Creating => Some(CreateSession(t.id, endpoint))
    case Adding => if t.process.Some? then Some(AddOf(t.id, t.process.value, associates)) else None
    case Retrying => if t.process.Some? then Some(AddOf(t.id, t.process.value, associates)) else None
    case Replaying(todo, _) => if todo != [] then Some(AddOf(t.id, todo[0], associates)) else None
    case _ => None
  }

  /** The phase once the answer is in. */
  function After(phase: Phase, answer: Answer): Phase {
    match phase
    case Opening => Opened(answer)
    case Adding => Added(answer)
    case Creating => Created(answer)
    case Replaying(todo, replayed) => Replayed(answer, todo, replayed)
    case Retrying => Retried(answer)
    case _ => phase
  }

  predicate Succeeded(answer: Answer) {
    answer == Answered(Accepted)
  }

  function WithPhase(s: System, i: nat, phase: Phase): System
    requires i < |s.tasks|
  {
    s.(tasks := s.tasks[i := s.tasks[i].(phase := phase)])
  }

  function WithRouting(s: System, id: string, routing: RoutingStatus): System {
    if id in s.clients then s.(clients := s.clients[id := s.clients[id].(routing := routing)]) else s
  }

  /** The routing status once an add has come to its end. */
  function Outcome(origin: Origin, client: Client, ok: bool): RoutingStatus {
    match origin
    case TargetRoot => if ok then Active else Failed
    case ExeRoot => if ok && !client.finished then Active else client.routing
    case Child => if ok && client.routing == SessionCreated then Active else client.routing
    case Quiet => client.routing
    case Manual => client.routing
  }

  function Conclude(s: System, i: nat, ok: bool): System
    requires i < |s.tasks| && s.tasks[i].id in s.clients
  {
    var t := s.tasks[i];
    WithRouting(WithPhase(s, i, Finished(ok)), t.id, Outcome(t.origin, s.clients[t.id], ok))
  }

  /** The end of the replay loop: the status is set, the lock released, and the caller retries. */
  function ReplayEnded(s: System, i: nat, replayed: nat): System
    requires i < |s.tasks| && s.tasks[i].id in s.clients
  {
    var t := s.tasks[i];
    var client := s.clients[t.id];
    var phase := if t.origin == Manual then Finished(true) else Retrying;
    var released := WithPhase(s.(gates := s.gates - {t.id}), i, phase);
    WithRouting(released, t.id, if replayed > 0 && !client.finished then Active else client.routing)
  }

  /** A task goes on after an await. */
  function Resumed(s: System, i: nat): System
    requires i < |s.tasks| && s.tasks[i].id in s.clients
  {
    var t := s.tasks[i];
    var client := s.clients[t.id];
    match t.phase
    case Opened(answer) =>
      if Succeeded(answer) then WithPhase(s, i, if t.process.Some? then Adding else Finished(true))
      else WithRouting(WithPhase(s, i, Finished(false)), t.id, Failed)
    case Added(answer) =>
      if answer == Answered(Rejected(SessionNotFound)) && client.endpoint != "" then WithPhase(s, i, Waiting)
      else Conclude(s, i, Succeeded(answer))
    case Created(answer) =>
      if Succeeded(answer) then WithPhase(s, i, Replaying(client.live, 0))
      else Conclude(s.(gates := s.gates - {t.id}), i, false)
    case Replayed(answer, todo, replayed) =>
      if todo == [] then s
      else WithPhase(s, i, Replaying(todo[1..], if Succeeded(answer) then replayed + 1 else replayed))
    case Replaying(todo, replayed) => if todo == [] then ReplayEnded(s, i, replayed) else s
    case Retried(answer) => Conclude(s, i, Succeeded(answer))
    case _ => s
  }

  /** A request is served, unless it is lost on the way. */
  function Sent(s: System, i: nat, loss: Loss, q: Request): System
    requires i < |s.tasks|
  {
    var (registry, reply) := Serve(s.registry, q);
    var answer := if loss == Delivered then Answered(reply) else Lost;
    WithPhase(if loss == LostBefore then s else s.(registry := registry), i, After(s.tasks[i].phase, answer))
  }

  /** How a task of each origin starts; without an endpoint some do not start at all. */
  predicate Startable(t: Task, endpoint: string) {
    match t.origin
    case TargetRoot => t.phase == Opening
    case ExeRoot => t.phase == Opening && endpoint != ""
    case Manual => t.phase == Waiting && t.process.None? && endpoint != ""
    case _ => t.phase == Adding
  }

  predicate Enabled(s: System, step: Step) {
    match step
    case Send(i, _, associates) =>
      i < |s.tasks| && s.tasks[i].id in s.clients
      && Pending(s.tasks[i], s.clients[s.tasks[i].id].endpoint, associates).Some?
    case Resume(i) =>
      i < |s.tasks| && s.tasks[i].id in s.clients
    case Acquire(i) =>
      i < |s.tasks| && s.tasks[i].phase.Waiting? && s.tasks[i].id !in s.gates
    case Begin(start) =>
      start.id in s.clients && s.clients[start.id].ipcManaged && Startable(start, s.clients[start.id].endpoint)
    case Open(id, _) => id !in s.clients
    case Change(id, _, _) => id in s.clients
    case Fail(id) => id in s.clients
    case Apply(id, _) => id in s.clients && !s.clients[id].ipcManaged
    case CloseDelivered(_) => true
    case Restart(_) => true
  }

  function Next(s: System, step: Step): System
    requires Enabled(s, step)
  {
    match step
    case Send(i, loss, associates) =>
      Sent(s, i, loss, Pending(s.tasks[i], s.clients[s.tasks[i].id].endpoint, associates).value)
    case Resume(i) => Resumed(s, i)
    case Acquire(i) => WithPhase(s.(gates := s.gates + {s.tasks[i].id}), i, Creating)
    case Begin(start) => s.(tasks := s.tasks + [start])
    case Open(id, client) => s.(clients := s.clients[id := client])
    case Change(id, live, finished) =>
      s.(clients := s.clients[id := s.clients[id].(live := live, finished := finished)])
    case Fail(id) => WithRouting(s, id, Failed)
    case Apply(id, routing) => WithRouting(s, id, routing)
    case CloseDelivered(id) => s.(registry := Close(s.registry, id).0)
    case Restart(proxies) => s.(registry := Started(proxies))
  }

  /** The steps can be taken one after the other from `s`. */
  predicate CanRun(s: System, steps: seq<Step>)
    decreases |steps|
  {
    steps == [] || (Enabled(s, steps[0]) && CanRun(Next(s, steps[0]), steps[1..]))
  }

  function RunTo(s: System, steps: seq<Step>): System
    requires CanRun(s, steps)
    decreases |steps|
  {
    if steps == [] then s else RunTo(Next(s, steps[0]), steps[1..])
  }

  // ----- each PID belongs to one session -----

  /** Each PID is added for one session only: the one `owner` names. */
  predicate OwnsAll(owner: Pid -> string, id: string, processes: seq<Process>) {
    forall p | p in processes :: owner(p.pid) == id
  }

  predicate TaskOwned(owner: Pid -> string, t: Task) {
    && (t.process.Some? ==> owner(t.process.value.pid) == t.id)
    && (t.phase.Replaying? || t.phase.Replayed? ==> OwnsAll(owner, t.id, t.phase.todo))
  }

  predicate StepOwned(owner: Pid -> string, step: Step) {
    match step
    case Begin(start) => TaskOwned(owner, start)
    case Open(id, client) => OwnsAll(owner, id, client.live)
    case Change(id, live, _) => OwnsAll(owner, id, live)
    case _ => true
  }

  /** The handle that session `id`'s endpoint stands for. */
  predicate HasHandle(s: System, id: string) {
    id in s.clients && s.clients[id].endpoint in s.registry.proxies
  }

  function HandleOf(s: System, id: string): ProxyHandle
    requires HasHandle(s, id)
  {
    s.registry.proxies[s.clients[id].endpoint]
  }

  /** `pid` is routed to its session's proxy. */
  predicate RoutedWell(owner: Pid -> string, s: System, pid: Pid) {
    && pid in s.registry.router && HasHandle(s, owner(pid))
    && s.registry.router[pid].proxy == HandleOf(s, owner(pid))
  }

  predicate SessionMatches(owner: Pid -> string, s: System, id: string) {
    && id in s.registry.sessions && !IsBlank(id) && HasHandle(s, id)
    && s.registry.sessions[id].proxy == HandleOf(s, id)
    && forall pid | pid in s.registry.sessions[id].pids :: owner(pid) == id
  }

  ghost predicate Inv(owner: Pid -> string, s: System) {
    && (forall pid | pid in s.registry.router :: RoutedWell(owner, s, pid))
    && (forall id | id in s.registry.sessions :: SessionMatches(owner, s, id))
    && AllOwned(owner, s)
  }

  lemma RegistryStep(owner: Pid -> string, s: System, q: Request)
    requires Inv(owner, s)
    requires q.CreateSession? ==> q.id in s.clients && q.endpoint == s.clients[q.id].endpoint
    requires q.AddPid? ==> owner(q.pid) == q.id
    ensures Inv(owner, s.(registry := Serve(s.registry, q).0))
  {
    var s' := s.(registry := Serve(s.registry, q).0);
    forall id | id in s'.registry.sessions
      ensures SessionMatches(owner, s', id)
    {
      assert id in s.registry.sessions ==> SessionMatches(owner, s, id);
    }
    forall pid | pid in s'.registry.router
      ensures RoutedWell(owner, s', pid)
    {
      assert pid in s.registry.router ==> RoutedWell(owner, s, pid);
      if q.AddPid? && q.id in s.registry.sessions {
        assert SessionMatches(owner, s, q.id);
      }
    }
  }

  /** The clients of `s` are still there, with their endpoints and their way of routing. */
  predicate ClientsKept(s: System, s': System) {
    forall id | id in s.clients ::
      && id in s'.clients
      && s'.clients[id].endpoint == s.clients[id].endpoint && s'.clients[id].ipcManaged == s.clients[id].ipcManaged
  }

  predicate AllOwned(owner: Pid -> string, s: System) {
    && (forall i | 0 <= i < |s.tasks| :: TaskOwned(owner, s.tasks[i]))
    && (forall id | id in s.clients :: OwnsAll(owner, id, s.clients[id].live))
  }

  lemma InvLocal(owner: Pid -> string, s: System, s': System)
    requires Inv(owner, s) && s'.registry == s.registry && ClientsKept(s, s') && AllOwned(owner, s')
    ensures Inv(owner, s')
  {
    forall id | id in s'.registry.sessions
      ensures SessionMatches(owner, s', id)
    {
      assert SessionMatches(owner, s, id);
    }
    forall pid | pid in s'.registry.router
      ensures RoutedWell(owner, s', pid)
    {
      assert RoutedWell(owner, s, pid);
    }
  }

  /** Setting a phase and a routing status, and changing the gates, touches nothing else. */
  lemma PhaseOwned(owner: Pid -> string, s: System, i: nat, phase: Phase)
    requires AllOwned(owner, s) && i < |s.tasks|
    requires phase.Replaying? || phase.Replayed? ==> OwnsAll(owner, s.tasks[i].id, phase.todo)
    ensures AllOwned(owner, WithPhase(s, i, phase))
  {
  }

  lemma RoutingOwned(owner: Pid -> string, s: System, id: string, routing: RoutingStatus)
    requires AllOwned(owner, s)
    ensures AllOwned(owner, WithRouting(s, id, routing))
    ensures ClientsKept(s, WithRouting(s, id, routing))
    ensures WithRouting(s, id, routing).registry == s.registry && WithRouting(s, id, routing).tasks == s.tasks
  {
  }

  /** A state of the client's own making: same registry, same clients, everything owned. */
  predicate Local(owner: Pid -> string, s: System, s': System) {
    AllOwned(owner, s') && ClientsKept(s, s') && s'.registry == s.registry
  }

  lemma PhaseLocal(owner: Pid -> string, s: System, i: nat, phase: Phase)
    requires AllOwned(owner, s) && i < |s.tasks|
    requires phase.Replaying? || phase.Replayed? ==> OwnsAll(owner, s.tasks[i].id, phase.todo)
    ensures Local(owner, s, WithPhase(s, i, phase))
  {
    PhaseOwned(owner, s, i, phase);
  }

  lemma ResumedOwned(owner: Pid -> string, s: System, i: nat)
    requires AllOwned(owner, s) && i < |s.tasks| && s.tasks[i].id in s.clients
    ensures Local(owner, s, Resumed(s, i))
  {
    var t := s.tasks[i];
    match t.phase
    case Opened(answer) =>
      PhaseLocal(owner, s, i, if t.process.Some? then Adding else Finished(true));
      PhaseLocal(owner, s, i, Finished(false));
      RoutingOwned(owner, WithPhase(s, i, Finished(false)), t.id, Failed);
    case Added(answer) =>
      PhaseLocal(owner, s, i, Waiting);
      ConcludedOwned(owner, s, i, Succeeded(answer));
    case Created(_) =>
      PhaseLocal(owner, s, i, Replaying(s.clients[t.id].live, 0));
      ConcludedOwned(owner, s.(gates := s.gates - {t.id}), i, false);
    case Replayed(answer, todo, replayed) =>
      if todo != [] {
        PhaseLocal(owner, s, i, Replaying(todo[1..], if Succeeded(answer) then replayed + 1 else replayed));
      }
    case Replaying(todo, replayed) => ReplayEndedOwned(owner, s, i, replayed);
    case Retried(answer) => ConcludedOwned(owner, s, i, Succeeded(answer));
    case _ =>
  }

  lemma ReplayEndedOwned(owner: Pid -> string, s: System, i: nat, replayed: nat)
    requires AllOwned(owner, s) && i < |s.tasks| && s.tasks[i].id in s.clients
    ensures Local(owner, s, ReplayEnded(s, i, replayed))
  {
    var t := s.tasks[i];
    var phase := if t.origin == Manual then Finished(true) else Retrying;
    var g := s.(gates := s.gates - {t.id});
    PhaseOwned(owner, g, i, phase);
    RoutingOwned(owner, WithPhase(g, i, phase), t.id,
                 if replayed > 0 && !s.clients[t.id].finished then Active else s.clients[t.id].routing);
  }

  lemma ConcludedOwned(owner: Pid -> string, s: System, i: nat, ok: bool)
    requires AllOwned(owner, s) && i < |s.tasks| && s.tasks[i].id in s.clients
    ensures Local(owner, s, Conclude(s, i, ok))
  {
    var t := s.tasks[i];
    PhaseOwned(owner, s, i, Finished(ok));
    RoutingOwned(owner, WithPhase(s, i, Finished(ok)), t.id, Outcome(t.origin, s.clients[t.id], ok));
  }

  lemma SentOwned(owner: Pid -> string, s: System, i: nat, loss: Loss, q: Request)
    requires AllOwned(owner, s) && i < |s.tasks|
    ensures AllOwned(owner, Sent(s, i, loss, q)) && ClientsKept(s, Sent(s, i, loss, q))
    ensures Sent(s, i, loss, q).registry == if loss == LostBefore then s.registry else Serve(s.registry, q).0
  {
    var answer := if loss == Delivered then Answered(Serve(s.registry, q).1) else Lost;
    assert TaskOwned(owner, s.tasks[i]);
    PhaseOwned(owner, s, i, After(s.tasks[i].phase, answer));
  }

  lemma NextOwned(owner: Pid -> string, s: System, step: Step)
    requires AllOwned(owner, s) && Enabled(s, step) && StepOwned(owner, step)
    ensures AllOwned(owner, Next(s, step)) && ClientsKept(s, Next(s, step))
  {
    match step
    case Send(i, loss, associates) =>
      SentOwned(owner, s, i, loss, Pending(s.tasks[i], s.clients[s.tasks[i].id].endpoint, associates).value);
    case Resume(i) => ResumedOwned(owner, s, i);
    case Acquire(i) => PhaseOwned(owner, s, i, Creating);
    case Fail(id) => RoutingOwned(owner, s, id, Failed);
    case Apply(id, routing) => RoutingOwned(owner, s, id, routing);
    case _ =>
  }

  /** The request that a step has the server carry out, if any. */
  function Served(s: System, step: Step): Option<Request>
    requires Enabled(s, step)
  {
    match step
    case Send(i, loss, associates) =>
      if loss == LostBefore then None else Pending(s.tasks[i], s.clients[s.tasks[i].id].endpoint, associates)
    case CloseDelivered(id) => Some(CloseSession(id))
    case _ => None
  }

  lemma RegistryNext(owner: Pid -> string, s: System, step: Step)
    requires AllOwned(owner, s) && Enabled(s, step) && !step.Restart?
    ensures Next(s, step).registry ==
      if Served(s, step).Some? then Serve(s.registry, Served(s, step).value).0 else s.registry
    ensures Served(s, step).Some? && Served(s, step).value.CreateSession? ==>
      && Served(s, step).value.id in s.clients
      && Served(s, step).value.endpoint == s.clients[Served(s, step).value.id].endpoint
    ensures Served(s, step).Some? && Served(s, step).value.AddPid? ==>
      Served(s, step).value.id in s.clients && owner(Served(s, step).value.pid) == Served(s, step).value.id
  {
    match step
    case Send(i, loss, associates) =>
      assert TaskOwned(owner, s.tasks[i]);
      SentOwned(owner, s, i, loss, Pending(s.tasks[i], s.clients[s.tasks[i].id].endpoint, associates).value);
    case Resume(i) => ResumedOwned(owner, s, i);
    case Fail(id) => RoutingOwned(owner, s, id, Failed);
    case Apply(id, routing) => RoutingOwned(owner, s, id, routing);
    case _ =>
  }

  /** The invariant of every run: open sessions and routes agree with the clients' endpoints. */
  lemma InvStep(owner: Pid -> string, s: System, step: Step)
    requires Inv(owner, s) && Enabled(s, step) && StepOwned(owner, step)
    ensures Inv(owner, Next(s, step))
  {
    NextOwned(owner, s, step);
    if !step.Restart? {
      RegistryNext(owner, s, step);
      if Served(s, step).Some? {
        RegistryStep(owner, s, Served(s, step).value);
        InvLocal(owner, s.(registry := Next(s, step).registry), Next(s, step));
      } else {
        InvLocal(owner, s, Next(s, step));
      }
    }
  }

  // ----- recovery loses nothing -----

  /** Only a close of its own session, or a restart of the service, takes a route away. */
  predicate Disrupts(step: Step, id: string) {
    step.Restart? || step == CloseDelivered(id)
  }

  lemma StepKeepsRoute(owner: Pid -> string, s: System, step: Step, pid: Pid)
    requires Inv(owner, s) && Enabled(s, step) && StepOwned(owner, step)
    requires pid in s.registry.router && !Disrupts(step, owner(pid))
    ensures pid in Next(s, step).registry.router
    ensures Next(s, step).registry.router[pid].proxy == s.registry.router[pid].proxy
    ensures RoutedWell(owner, Next(s, step), pid)
  {
    InvStep(owner, s, step);
    RegistryNext(owner, s, step);
    assert RoutedWell(owner, s, pid);
    if Served(s, step).Some? && Served(s, step).value.id in s.registry.sessions {
      assert SessionMatches(owner, s, Served(s, step).value.id);
    }
  }

  /** A run in which each PID is added for its own session only. */
  predicate OwnedRun(owner: Pid -> string, s: System, steps: seq<Step>) {
    CanRun(s, steps) && forall step | step in steps :: StepOwned(owner, step)
  }

  lemma {:induction false} InvRun(owner: Pid -> string, s: System, steps: seq<Step>)
    requires Inv(owner, s) && OwnedRun(owner, s, steps)
    ensures Inv(owner, RunTo(s, steps))
    decreases |steps|
  {
    if steps != [] {
      InvStep(owner, s, steps[0]);
      InvRun(owner, Next(s, steps[0]), steps[1..]);
    }
  }

  predicate Undisturbed(steps: seq<Step>, id: string) {
    forall step | step in steps :: !Disrupts(step, id)
  }

  /** Recovery is lossless under every interleaving: whatever tasks add, fail to find the session,
      create it anew, replay and retry, a routed PID stays routed through the same handle until its
      own session is closed or the service restarts. */
  lemma {:induction false} RecoveryLossless(owner: Pid -> string, s: System, steps: seq<Step>, pid: Pid)
    requires Inv(owner, s) && OwnedRun(owner, s, steps)
    requires pid in s.registry.router && Undisturbed(steps, owner(pid))
    ensures pid in RunTo(s, steps).registry.router && RoutedWell(owner, RunTo(s, steps), pid)
    ensures RunTo(s, steps).registry.router[pid].proxy == s.registry.router[pid].proxy
    decreases |steps|
  {
    if steps == [] {
      assert RoutedWell(owner, s, pid);
    } else {
      InvStep(owner, s, steps[0]);
      StepKeepsRoute(owner, s, steps[0], pid);
      RecoveryLossless(owner, Next(s, steps[0]), steps[1..], pid);
    }
  }

  /** A step at which the server accepts an added PID and the client gets the acknowledgement. */
  predicate Acknowledges(s: System, step: Step, id: string, pid: Pid)
    requires Enabled(s, step)
  {
    && step.Send? && step.loss == Delivered
    && var q := Served(s, step).value;
       q.AddPid? && q.id == id && q.pid == pid && Serve(s.registry, q).1.Accepted?
  }

  /** At that moment the router maps the PID to the session's handle. */
  lemma AcknowledgedIsRouted(s: System, step: Step, id: string, pid: Pid)
    requires Enabled(s, step) && Acknowledges(s, step, id, pid)
    ensures var r := Next(s, step).registry;
            && id in r.sessions && pid in r.sessions[id].pids
            && pid in r.router && r.router[pid].proxy == r.sessions[id].proxy
  {
  }

  /** And its route carries the creation time under which the client knows the process: the task's
      own, or the one at the head of its replay. */
  lemma AcknowledgedAsKnown(s: System, step: Step, id: string, pid: Pid)
    requires Enabled(s, step) && Acknowledges(s, step, id, pid)
    ensures var t, r := s.tasks[step.task], Next(s, step).registry;
            && pid in r.router && id in r.sessions
            && (t.phase.Replaying? ==>
                  t.phase.todo != [] && t.phase.todo[0].pid == pid
                  && r.router[pid] == PidRoute(r.sessions[id].proxy, t.phase.todo[0].createdAt))
            && (!t.phase.Replaying? ==>
                  t.process.Some? && t.process.value.pid == pid
                  && r.router[pid] == PidRoute(r.sessions[id].proxy, t.process.value.createdAt))
  {
  }

  /** A PID acknowledged in one step is its session's, and stays routed to the handle of its
      session's endpoint through whatever comes later. */
  lemma AcknowledgedStays(owner: Pid -> string, s: System, step: Step, later: seq<Step>, id: string, pid: Pid)
    requires Inv(owner, s) && Enabled(s, step) && Acknowledges(s, step, id, pid)
    requires OwnedRun(owner, Next(s, step), later) && Undisturbed(later, id)
    ensures owner(pid) == id && RoutedWell(owner, RunTo(Next(s, step), later), pid)
  {
    RegistryNext(owner, s, step);
    AcknowledgedIsRouted(s, step, id, pid);
    InvStep(owner, s, step);
    RecoveryLossless(owner, Next(s, step), later, pid);
  }

  // ----- the replay reaches every live process -----

  /** The replay of task `i` over `snapshot`, all of it acknowledged so far: `done` processes are
      routed and `todo` are left. */
  predicate OnTrack(owner: Pid -> string, s: System, snapshot: seq<Process>, todo: seq<Process>, replayed: nat,
                    done: nat) {
    && replayed <= done <= |snapshot| && todo == snapshot[replayed..]
    && forall k | 0 <= k < done :: RoutedWell(owner, s, snapshot[k].pid)
  }

  predicate ReplayOnTrack(owner: Pid -> string, s: System, i: nat, id: string, snapshot: seq<Process>) {
    && i < |s.tasks| && s.tasks[i].id == id && id in s.registry.sessions && OwnsAll(owner, id, snapshot)
    && match s.tasks[i].phase
       case Replaying(todo, replayed) => OnTrack(owner, s, snapshot, todo, replayed, replayed)
       case Replayed(answer, todo, replayed) =>
         Succeeded(answer) && OnTrack(owner, s, snapshot, todo, replayed, replayed + 1)
       case _ => false
  }

  /** A step that neither disturbs the session nor fails a request of task `i`. */
  predicate Smooth(step: Step, i: nat, id: string) {
    !Disrupts(step, id) && (step.Send? && step.task == i ==> step.loss == Delivered && step.associates)
  }

  /** The step with which task `i` leaves its replay loop. */
  predicate EndsReplay(s: System, step: Step, i: nat) {
    step == Resume(i) && i < |s.tasks| && s.tasks[i].phase.Replaying? && s.tasks[i].phase.todo == []
  }

  lemma SessionStepStays(owner: Pid -> string, s: System, step: Step, id: string)
    requires Inv(owner, s) && Enabled(s, step) && StepOwned(owner, step)
    requires id in s.registry.sessions && !Disrupts(step, id)
    ensures id in Next(s, step).registry.sessions
  {
    RegistryNext(owner, s, step);
  }

  /** Only its own task's steps move a task. */
  lemma TaskStays(owner: Pid -> string, s: System, step: Step, i: nat)
    requires AllOwned(owner, s) && Enabled(s, step) && i < |s.tasks|
    requires !(step.Send? && step.task == i) && step != Resume(i) && step != Acquire(i)
    ensures i < |Next(s, step).tasks| && Next(s, step).tasks[i] == s.tasks[i]
  {
  }

  lemma RoutesStay(owner: Pid -> string, s: System, step: Step, id: string, snapshot: seq<Process>, done: nat)
    requires Inv(owner, s) && Enabled(s, step) && StepOwned(owner, step) && !Disrupts(step, id)
    requires OwnsAll(owner, id, snapshot) && done <= |snapshot|
    requires forall k | 0 <= k < done :: RoutedWell(owner, s, snapshot[k].pid)
    ensures forall k | 0 <= k < done :: RoutedWell(owner, Next(s, step), snapshot[k].pid)
  {
    forall k | 0 <= k < done
      ensures RoutedWell(owner, Next(s, step), snapshot[k].pid)
    {
      assert RoutedWell(owner, s, snapshot[k].pid);
      StepKeepsRoute(owner, s, step, snapshot[k].pid);
    }
  }

  lemma OnTrackStep(owner: Pid -> string, s: System, step: Step, i: nat, id: string, snapshot: seq<Process>)
    requires Inv(owner, s) && Enabled(s, step) && StepOwned(owner, step)
    requires ReplayOnTrack(owner, s, i, id, snapshot)
    requires Smooth(step, i, id) && !EndsReplay(s, step, i)
    ensures ReplayOnTrack(owner, Next(s, step), i, id, snapshot)
  {
    SessionStepStays(owner, s, step, id);
    var t := s.tasks[i];
    var done := if t.phase.Replaying? then t.phase.replayed else t.phase.replayed + 1;
    RoutesStay(owner, s, step, id, snapshot, done);
    if step.Send? && step.task == i {
      ReplayServed(owner, s, step, i, id, snapshot);
    } else if step != Resume(i) {
      TaskStays(owner, s, step, i);
    }
  }

  /** A replay request on an open session is accepted, and its PID routed. */
  lemma ReplayServed(owner: Pid -> string, s: System, step: Step, i: nat, id: string, snapshot: seq<Process>)
    requires Inv(owner, s) && Enabled(s, step) && StepOwned(owner, step)
    requires ReplayOnTrack(owner, s, i, id, snapshot)
    requires Smooth(step, i, id) && step.Send? && step.task == i
    ensures i < |Next(s, step).tasks|
    ensures Next(s, step).tasks[i].phase ==
      Replayed(Answered(Accepted), s.tasks[i].phase.todo, s.tasks[i].phase.replayed)
    ensures RoutedWell(owner, Next(s, step), s.tasks[i].phase.todo[0].pid)
  {
    var pid := s.tasks[i].phase.todo[0].pid;
    assert SessionMatches(owner, s, id);
    assert Acknowledges(s, step, id, pid);
    AcknowledgedIsRouted(s, step, id, pid);
    InvStep(owner, s, step);
    assert snapshot[s.tasks[i].phase.replayed] in snapshot;
  }

  /** A run of smooth steps in which task `i` stays in its replay loop. */
  predicate SmoothRun(s: System, steps: seq<Step>, i: nat, id: string)
    requires CanRun(s, steps)
    decreases |steps|
  {
    || steps == []
    || (Smooth(steps[0], i, id) && !EndsReplay(s, steps[0], i) && SmoothRun(Next(s, steps[0]), steps[1..], i, id))
  }

  lemma {:induction false} OnTrackRun(owner: Pid -> string, s: System, steps: seq<Step>, i: nat, id: string,
                                      snapshot: seq<Process>)
    requires Inv(owner, s) && OwnedRun(owner, s, steps)
    requires ReplayOnTrack(owner, s, i, id, snapshot) && SmoothRun(s, steps, i, id)
    ensures ReplayOnTrack(owner, RunTo(s, steps), i, id, snapshot)
    decreases |steps|
  {
    if steps != [] {
      InvStep(owner, s, steps[0]);
      OnTrackStep(owner, s, steps[0], i, id, snapshot);
      OnTrackRun(owner, Next(s, steps[0]), steps[1..], i, id, snapshot);
    }
  }

  lemma {:induction false} SessionStaysOpen(owner: Pid -> string, s: System, steps: seq<Step>, id: string)
    requires Inv(owner, s) && OwnedRun(owner, s, steps)
    requires id in s.registry.sessions && Undisturbed(steps, id)
    ensures id in RunTo(s, steps).registry.sessions
    decreases |steps|
  {
    if steps != [] {
      InvStep(owner, s, steps[0]);
      SessionStepStays(owner, s, steps[0], id);
      SessionStaysOpen(owner, Next(s, steps[0]), steps[1..], id);
    }
  }

  /** The server creates the session for task `i`, and the client gets to know. */
  predicate Creates(s: System, step: Step, i: nat, id: string)
    requires Enabled(s, step)
  {
    && step.Send? && step.task == i && step.loss == Delivered && s.tasks[i].id == id
    && Served(s, step).value.CreateSession? && Serve(s.registry, Served(s, step).value).1.Accepted?
  }

  /** If no association fails, the replay reaches every live process. Task `i` has the session
      created; after some steps it takes its snapshot of the live processes; when, after further
      steps, it has nothing left to replay, all of the snapshot counts as replayed and is routed to
      the session's handle, whatever other tasks did in between. */
  lemma ReplayReachesAll(owner: Pid -> string, s: System, create: Step, before: seq<Step>, during: seq<Step>, i: nat,
                         id: string)
    requires Inv(owner, s) && Enabled(s, create) && Creates(s, create, i, id)
    requires OwnedRun(owner, Next(s, create), before) && Undisturbed(before, id)
    requires var t := RunTo(Next(s, create), before);
             && i < |t.tasks| && t.tasks[i].id == id && id in t.clients
             && t.tasks[i].phase == Created(Answered(Accepted))
             && OwnedRun(owner, Next(t, Resume(i)), during) && SmoothRun(Next(t, Resume(i)), during, i, id)
    ensures var t := RunTo(Next(s, create), before);
            var u := RunTo(Next(t, Resume(i)), during);
            var snapshot := t.clients[id].live;
            i < |u.tasks| && u.tasks[i].phase.Replaying? && u.tasks[i].phase.todo == [] ==>
              && u.tasks[i].phase.replayed == |snapshot|
              && forall p | p in snapshot :: RoutedWell(owner, u, p.pid)
  {
    InvStep(owner, s, create);
    InvRun(owner, Next(s, create), before);
    SessionStaysOpen(owner, Next(s, create), before, id);
    SnapshotReplayed(owner, RunTo(Next(s, create), before), during, i, id);
  }

  lemma SnapshotReplayed(owner: Pid -> string, t: System, during: seq<Step>, i: nat, id: string)
    requires Inv(owner, t) && i < |t.tasks| && t.tasks[i].id == id && id in t.clients && id in t.registry.sessions
    requires t.tasks[i].phase == Created(Answered(Accepted))
    requires OwnedRun(owner, Next(t, Resume(i)), during) && SmoothRun(Next(t, Resume(i)), during, i, id)
    ensures var u := RunTo(Next(t, Resume(i)), during);
            var snapshot := t.clients[id].live;
            i < |u.tasks| && u.tasks[i].phase.Replaying? && u.tasks[i].phase.todo == [] ==>
              && u.tasks[i].phase.replayed == |snapshot|
              && forall p | p in snapshot :: RoutedWell(owner, u, p.pid)
  {
    var snapshot := t.clients[id].live;
    InvStep(owner, t, Resume(i));
    var u := Next(t, Resume(i));
    assert OnTrack(owner, u, snapshot, snapshot, 0, 0);
    OnTrackRun(owner, u, during, i, id, snapshot);
    forall p | p in snapshot && OnTrack(owner, RunTo(u, during), snapshot, [], |snapshot|, |snapshot|)
      ensures RoutedWell(owner, RunTo(u, during), p.pid)
    {
      var j :| 0 <= j < |snapshot| && snapshot[j] == p;
    }
  }

  /** And the retried add then succeeds, if the router takes it. */
  lemma RetrySucceeds(owner: Pid -> string, s: System, create: Step, between: seq<Step>, i: nat, id: string)
    requires Inv(owner, s) && Enabled(s, create) && Creates(s, create, i, id)
    requires OwnedRun(owner, Next(s, create), between) && Undisturbed(between, id)
    requires var t := RunTo(Next(s, create), between);
             && i < |t.tasks| && t.tasks[i].id == id && t.tasks[i].phase == Retrying
             && Enabled(t, Send(i, Delivered, true))
    ensures var t := RunTo(Next(s, create), between);
            && Acknowledges(t, Send(i, Delivered, true), id, t.tasks[i].process.value.pid)
            && Next(t, Send(i, Delivered, true)).tasks[i].phase == Retried(Answered(Accepted))
  {
    InvStep(owner, s, create);
    InvRun(owner, Next(s, create), between);
    SessionStaysOpen(owner, Next(s, create), between, id);
    assert SessionMatches(owner, RunTo(Next(s, create), between), id);
  }

  // ----- the recovery lock -----

  /** Between taking and releasing the recovery lock. */
  predicate InRecovery(t: Task) {
    t.phase.Creating? || t.phase.Created? || t.phase.Replaying? || t.phase.Replayed?
  }

  /** At most one task recovers a session at a time, and it holds the session's lock. */
  predicate Exclusive(s: System) {
    && (forall i | 0 <= i < |s.tasks| && InRecovery(s.tasks[i]) :: s.tasks[i].id in s.gates)
    && (forall i, j | 0 <= i < j < |s.tasks| && InRecovery(s.tasks[i]) && InRecovery(s.tasks[j]) ::
          s.tasks[i].id != s.tasks[j].id)
  }

  /** A phase change that does not enter recovery. */
  lemma PhaseExclusive(s: System, i: nat, phase: Phase)
    requires Exclusive(s) && i < |s.tasks|
    requires InRecovery(s.tasks[i].(phase := phase)) ==> InRecovery(s.tasks[i])
    ensures Exclusive(WithPhase(s, i, phase))
  {
  }

  /** Leaving recovery releases the lock. */
  lemma ReleaseExclusive(s: System, i: nat, phase: Phase)
    requires Exclusive(s) && i < |s.tasks| && InRecovery(s.tasks[i]) && !InRecovery(s.tasks[i].(phase := phase))
    ensures Exclusive(WithPhase(s.(gates := s.gates - {s.tasks[i].id}), i, phase))
  {
  }

  lemma AcquireExclusive(s: System, i: nat)
    requires Exclusive(s) && i < |s.tasks| && s.tasks[i].id !in s.gates
    ensures Exclusive(WithPhase(s.(gates := s.gates + {s.tasks[i].id}), i, Creating))
  {
  }

  lemma RoutingExclusive(s: System, id: string, routing: RoutingStatus)
    requires Exclusive(s)
    ensures Exclusive(WithRouting(s, id, routing))
  {
  }

  lemma ResumedExclusive(s: System, i: nat)
    requires Exclusive(s) && i < |s.tasks| && s.tasks[i].id in s.clients
    ensures Exclusive(Resumed(s, i))
  {
    var t := s.tasks[i];
    match t.phase
    case Opened(_) =>
      PhaseExclusive(s, i, Adding);
      PhaseExclusive(s, i, Finished(true));
      PhaseExclusive(s, i, Finished(false));
      RoutingExclusive(WithPhase(s, i, Finished(false)), t.id, Failed);
    case Added(answer) =>
      PhaseExclusive(s, i, Waiting);
      PhaseExclusive(s, i, Finished(Succeeded(answer)));
    case Created(_) =>
      PhaseExclusive(s, i, Replaying(s.clients[t.id].live, 0));
      ReleaseExclusive(s, i, Finished(false));
    case Replayed(answer, todo, replayed) =>
      if todo != [] {
        PhaseExclusive(s, i, Replaying(todo[1..], if Succeeded(answer) then replayed + 1 else replayed));
      }
    case Replaying(todo, replayed) =>
      ReleaseExclusive(s, i, if t.origin == Manual then Finished(true) else Retrying);
    case Retried(answer) =>
      PhaseExclusive(s, i, Finished(Succeeded(answer)));
    case _ =>
  }

  lemma ExclusiveStep(s: System, step: Step)
    requires Exclusive(s) && Enabled(s, step)
    ensures Exclusive(Next(s, step))
  {
    match step
    case Send(i, loss, associates) =>
      var reply := Serve(s.registry, Pending(s.tasks[i], s.clients[s.tasks[i].id].endpoint, associates).value).1;
      PhaseExclusive(s, i, After(s.tasks[i].phase, if loss == Delivered then Answered(reply) else Lost));
    case Resume(i) => ResumedExclusive(s, i);
    case Acquire(i) => AcquireExclusive(s, i);
    case _ =>
  }

  lemma {:induction false} ExclusiveRun(s: System, steps: seq<Step>)
    requires Exclusive(s) && CanRun(s, steps)
    ensures Exclusive(RunTo(s, steps))
    decreases |steps|
  {
    if steps != [] {
      ExclusiveStep(s, steps[0]);
      ExclusiveRun(Next(s, steps[0]), steps[1..]);
    }
  }

  /** Task `i` is recovering session `id`. */
  predicate Recovers(s: System, id: string, i: nat) {
    i < |s.tasks| && InRecovery(s.tasks[i]) && s.tasks[i].id == id
  }

  /** Each held lock belongs to a recovery in progress; a replay that awaits an answer has something
      left to do. */
  ghost predicate Held(s: System) {
    && (forall id | id in s.gates :: exists i: nat :: Recovers(s, id, i))
    && (forall i | 0 <= i < |s.tasks| && s.tasks[i].phase.Replayed? :: s.tasks[i].phase.todo != [])
  }

  lemma RecoveryStays(s: System, step: Step, id: string, i: nat)
    requires Enabled(s, step) && Recovers(s, id, i) && id in Next(s, step).gates
    ensures Recovers(Next(s, step), id, i)
  {
  }

  lemma LockTaken(s: System, step: Step, id: string)
    requires Enabled(s, step) && id !in s.gates && id in Next(s, step).gates
    ensures step.Acquire? && Recovers(Next(s, step), id, step.task)
  {
  }

  lemma HeldStep(s: System, step: Step)
    requires Held(s) && Enabled(s, step)
    ensures Held(Next(s, step))
  {
    forall id | id in Next(s, step).gates
      ensures exists i: nat :: Recovers(Next(s, step), id, i)
    {
      if id !in s.gates {
        LockTaken(s, step, id);
      }
      if id in s.gates {
        var i: nat :| Recovers(s, id, i);
        RecoveryStays(s, step, id, i);
      }
    }
    forall i | 0 <= i < |Next(s, step).tasks| && Next(s, step).tasks[i].phase.Replayed?
      ensures Next(s, step).tasks[i].phase.todo != []
    {
      if i < |s.tasks| {
        ReplayLeftStays(s, step, i);
      }
    }
  }

  lemma ReplayLeftStays(s: System, step: Step, i: nat)
    requires Enabled(s, step) && i < |s.tasks|
    requires s.tasks[i].phase.Replayed? ==> s.tasks[i].phase.todo != []
    ensures i < |Next(s, step).tasks|
    ensures Next(s, step).tasks[i].phase.Replayed? ==> Next(s, step).tasks[i].phase.todo != []
  {
  }

  lemma {:induction false} HeldRun(s: System, steps: seq<Step>)
    requires Held(s) && CanRun(s, steps)
    ensures Held(RunTo(s, steps))
    decreases |steps|
  {
    if steps != [] {
      HeldStep(s, steps[0]);
      HeldRun(Next(s, steps[0]), steps[1..]);
    }
  }

  // ----- the routing status is honest -----

  /** Acknowledged adds so far: session and PID. */
  type Acks = set<(string, Pid)>

  function NewAcks(s: System, step: Step): Acks
    requires Enabled(s, step)
  {
    if step.Send? && Served(s, step).Some? && Served(s, step).value.AddPid?
       && Acknowledges(s, step, Served(s, step).value.id, Served(s, step).value.pid)
    then {(Served(s, step).value.id, Served(s, step).value.pid)} else {}
  }

  ghost predicate HasAck(acks: Acks, id: string) {
    exists pid :: (id, pid) in acks
  }

  /** A task's own process has been acknowledged. */
  predicate OwnAck(t: Task, acks: Acks) {
    t.process.Some? && (t.id, t.process.value.pid) in acks
  }

  /** What a task has seen acknowledged, the server has acknowledged. */
  ghost predicate TaskHonest(t: Task, acks: Acks) {
    match t.phase
    case Added(answer) => Succeeded(answer) ==> OwnAck(t, acks)
    case Retried(answer) => Succeeded(answer) ==> OwnAck(t, acks)
    case Finished(ok) => ok && t.process.Some? ==> OwnAck(t, acks)
    case Replaying(_, replayed) => replayed > 0 ==> HasAck(acks, t.id)
    case Replayed(answer, _, replayed) => replayed > 0 || Succeeded(answer) ==> HasAck(acks, t.id)
    case _ => true
  }

  ghost predicate ClientHonest(id: string, client: Client, acks: Acks) {
    client.ipcManaged && client.routing == Active ==> HasAck(acks, id)
  }

  /** The user's replays have no process of their own. */
  predicate ManualEmpty(s: System) {
    forall i | 0 <= i < |s.tasks| && s.tasks[i].origin == Manual :: s.tasks[i].process.None?
  }

  /** Nothing is shown of session `id`, and none of its tasks has seen anything, that has not been
      acknowledged. */
  ghost predicate Honest(s: System, id: string, acks: Acks) {
    && (forall i | 0 <= i < |s.tasks| && s.tasks[i].id == id :: TaskHonest(s.tasks[i], acks))
    && ManualEmpty(s)
    && (id in s.clients ==> ClientHonest(id, s.clients[id], acks))
  }

  /** The session does not start out as active over the pipe; how others start does not matter. */
  predicate OpensHonestly(step: Step, id: string) {
    step.Open? && step.id == id ==> !(step.client.ipcManaged && step.client.routing == Active)
  }

  predicate OpenedHonestly(steps: seq<Step>, id: string) {
    forall step | step in steps :: OpensHonestly(step, id)
  }

  lemma HonestMore(s: System, id: string, acks: Acks, more: Acks)
    requires Honest(s, id, acks) && acks <= more
    ensures Honest(s, id, more)
  {
    if HasAck(acks, id) {
      var pid :| (id, pid) in acks;
      assert (id, pid) in more;
    }
  }

  lemma PhaseHonest(s: System, id: string, acks: Acks, i: nat, phase: Phase)
    requires Honest(s, id, acks) && i < |s.tasks|
    requires s.tasks[i].id == id ==> TaskHonest(s.tasks[i].(phase := phase), acks)
    ensures Honest(WithPhase(s, i, phase), id, acks)
  {
  }

  lemma RoutingHonest(s: System, id: string, acks: Acks, target: string, routing: RoutingStatus)
    requires Honest(s, id, acks)
    requires target == id && id in s.clients ==>
      routing != Active || routing == s.clients[id].routing || !s.clients[id].ipcManaged || HasAck(acks, id)
    ensures Honest(WithRouting(s, target, routing), id, acks)
  {
  }

  lemma ConcludedHonest(s: System, id: string, acks: Acks, i: nat, ok: bool)
    requires Honest(s, id, acks) && i < |s.tasks| && s.tasks[i].id in s.clients
    requires ok && s.tasks[i].id == id ==> OwnAck(s.tasks[i], acks)
    ensures Honest(Conclude(s, i, ok), id, acks)
  {
    PhaseHonest(s, id, acks, i, Finished(ok));
    RoutingHonest(WithPhase(s, i, Finished(ok)), id, acks, s.tasks[i].id,
                  Outcome(s.tasks[i].origin, s.clients[s.tasks[i].id], ok));
  }

  lemma ReplayEndedHonest(s: System, id: string, acks: Acks, i: nat, replayed: nat)
    requires Honest(s, id, acks) && i < |s.tasks| && s.tasks[i].id in s.clients
    requires replayed > 0 && s.tasks[i].id == id ==> HasAck(acks, id)
    ensures Honest(ReplayEnded(s, i, replayed), id, acks)
  {
    var t := s.tasks[i];
    var phase := if t.origin == Manual then Finished(true) else Retrying;
    var g := s.(gates := s.gates - {t.id});
    PhaseHonest(g, id, acks, i, phase);
    RoutingHonest(WithPhase(g, i, phase), id, acks, t.id,
                  if replayed > 0 && !s.clients[t.id].finished then Active else s.clients[t.id].routing);
  }

  lemma ResumedHonest(s: System, id: string, acks: Acks, i: nat)
    requires Honest(s, id, acks) && i < |s.tasks| && s.tasks[i].id in s.clients
    ensures Honest(Resumed(s, i), id, acks)
  {
    var t := s.tasks[i];
    assert t.id == id ==> TaskHonest(t, acks);
    match t.phase
    case Opened(_) =>
      PhaseHonest(s, id, acks, i, if t.process.Some? then Adding else Finished(true));
      PhaseHonest(s, id, acks, i, Finished(false));
      RoutingHonest(WithPhase(s, i, Finished(false)), id, acks, t.id, Failed);
    case Added(answer) =>
      if answer != Answered(Rejected(SessionNotFound)) || s.clients[t.id].endpoint == "" {
        ConcludedHonest(s, id, acks, i, Succeeded(answer));
      }
    case Created(answer) =>
      ConcludedHonest(s.(gates := s.gates - {t.id}), id, acks, i, false);
    case Replayed(answer, todo, replayed) =>
    case Replaying(todo, replayed) =>
      ReplayEndedHonest(s, id, acks, i, replayed);
    case Retried(answer) => ConcludedHonest(s, id, acks, i, Succeeded(answer));
    case _ =>
  }

  lemma SentHonest(s: System, id: string, acks: Acks, step: Step)
    requires Honest(s, id, acks) && Enabled(s, step) && step.Send?
    ensures Honest(Next(s, step), id, acks + NewAcks(s, step))
  {
    var i, more := step.task, acks + NewAcks(s, step);
    var q := Pending(s.tasks[i], s.clients[s.tasks[i].id].endpoint, step.associates).value;
    var (registry, reply) := Serve(s.registry, q);
    var answer := if step.loss == Delivered then Answered(reply) else Lost;
    var served := if step.loss == LostBefore then s else s.(registry := registry);
    HonestMore(s, id, acks, more);
    assert Honest(served, id, more);
    assert s.tasks[i].id == id ==> TaskHonest(s.tasks[i], more);
    if q.AddPid? && Succeeded(answer) {
      assert (q.id, q.pid) in more;
    }
    PhaseHonest(served, id, more, i, After(s.tasks[i].phase, answer));
  }

  lemma BeginHonest(s: System, id: string, acks: Acks, start: Task)
    requires Honest(s, id, acks) && Enabled(s, Begin(start))
    ensures Honest(Next(s, Begin(start)), id, acks)
  {
    assert TaskHonest(start, acks);
  }

  lemma LocalStepHonest(s: System, id: string, acks: Acks, step: Step)
    requires Honest(s, id, acks) && Enabled(s, step) && OpensHonestly(step, id) && !step.Send?
    ensures Honest(Next(s, step), id, acks)
  {
    match step
    case Resume(i) => ResumedHonest(s, id, acks, i);
    case Begin(start) => BeginHonest(s, id, acks, start);
    case Fail(target) => RoutingHonest(s, id, acks, target, Failed);
    case Apply(target, routing) => RoutingHonest(s, id, acks, target, routing);
    case _ =>
  }

  lemma HonestStep(s: System, id: string, acks: Acks, step: Step)
    requires Honest(s, id, acks) && Enabled(s, step) && OpensHonestly(step, id)
    ensures Honest(Next(s, step), id, acks + NewAcks(s, step))
  {
    if step.Send? {
      SentHonest(s, id, acks, step);
    } else {
      LocalStepHonest(s, id, acks, step);
      HonestMore(Next(s, step), id, acks, acks + NewAcks(s, step));
    }
  }

  function AcksOf(s: System, steps: seq<Step>): Acks
    requires CanRun(s, steps)
    decreases |steps|
  {
    if steps == [] then {} else NewAcks(s, steps[0]) + AcksOf(Next(s, steps[0]), steps[1..])
  }

  lemma {:induction false} HonestRun(s: System, id: string, acks: Acks, steps: seq<Step>)
    requires Honest(s, id, acks) && CanRun(s, steps) && OpenedHonestly(steps, id)
    ensures Honest(RunTo(s, steps), id, acks + AcksOf(s, steps))
    decreases |steps|
  {
    if steps == [] {
      assert acks + AcksOf(s, steps) == acks;
    } else {
      HonestStep(s, id, acks, steps[0]);
      HonestRun(Next(s, steps[0]), id, acks + NewAcks(s, steps[0]), steps[1..]);
      assert acks + NewAcks(s, steps[0]) + AcksOf(Next(s, steps[0]), steps[1..]) == acks + AcksOf(s, steps);
    }
  }

  /** An acknowledgement of the run lies at one of its steps. */
  lemma {:induction false} AckFound(s: System, steps: seq<Step>, id: string, pid: Pid) returns (before: seq<Step>)
    requires CanRun(s, steps) && (id, pid) in AcksOf(s, steps)
    ensures before < steps && CanRun(s, before)
    ensures Enabled(RunTo(s, before), steps[|before|]) && Acknowledges(RunTo(s, before), steps[|before|], id, pid)
    decreases |steps|
  {
    if (id, pid) in NewAcks(s, steps[0]) {
      before := [];
    } else {
      var rest := AckFound(Next(s, steps[0]), steps[1..], id, pid);
      before := [steps[0]] + rest;
      assert before[1..] == rest;
    }
  }

  /** An honest status: in every run from a fresh start, a session managed over the pipe that did not
      open as active, however others opened, shows an active route only after the server has
      acknowledged an add for it, and at that moment the router mapped the PID to the session's
      handle. */
  lemma HonestStatus(s: System, steps: seq<Step>, id: string) returns (before: seq<Step>, pid: Pid)
    requires s.clients == map[] && s.tasks == []
    requires CanRun(s, steps) && OpenedHonestly(steps, id)
    requires id in RunTo(s, steps).clients
    requires RunTo(s, steps).clients[id].ipcManaged && RunTo(s, steps).clients[id].routing == Active
    ensures before < steps && CanRun(s, before) && Enabled(RunTo(s, before), steps[|before|])
    ensures Acknowledges(RunTo(s, before), steps[|before|], id, pid)
    ensures var r := Next(RunTo(s, before), steps[|before|]).registry;
            id in r.sessions && pid in r.router && r.router[pid].proxy == r.sessions[id].proxy
  {
    HonestRun(s, id, {}, steps);
    assert ClientHonest(id, RunTo(s, steps).clients[id], {} + AcksOf(s, steps));
    pid :| (id, pid) in AcksOf(s, steps);
    before := AckFound(s, steps, id, pid);
    AcknowledgedIsRouted(RunTo(s, before), steps[|before|], id, pid);
  }

  /** A run splits at any of its steps. */
  lemma {:induction false} RunSplits(s: System, steps: seq<Step>, before: seq<Step>)
    requires CanRun(s, steps) && before < steps && CanRun(s, before)
    ensures Enabled(RunTo(s, before), steps[|before|])
    ensures CanRun(Next(RunTo(s, before), steps[|before|]), steps[|before| + 1..])
    ensures RunTo(Next(RunTo(s, before), steps[|before|]), steps[|before| + 1..]) == RunTo(s, steps)
    decreases |before|
  {
    if before != [] {
      RunSplits(Next(s, steps[0]), steps[1..], before[1..]);
      assert steps[1..][|before|..] == steps[|before| + 1..];
    }
  }

  // ----- what a task has been told, the server has done -----

  /** The client has just started, and the service with it. */
  function Fresh(proxies: map<string, ProxyHandle>): System {
    System(Started(proxies), map[], [], {})
  }

  lemma FreshStart(owner: Pid -> string, proxies: map<string, ProxyHandle>)
    ensures Inv(owner, Fresh(proxies)) && Exclusive(Fresh(proxies)) && Held(Fresh(proxies))
    ensures forall id :: Honest(Fresh(proxies), id, {})
  {
  }

  /** Every state that a run reaches is in order: routes agree with endpoints, recoveries exclude one
      another, each held lock belongs to one of them, and what the client shows of a session that
      opened honestly has been acknowledged. */
  lemma ReachableInOrder(owner: Pid -> string, proxies: map<string, ProxyHandle>, steps: seq<Step>)
    requires OwnedRun(owner, Fresh(proxies), steps)
    ensures var u := RunTo(Fresh(proxies), steps);
            && Inv(owner, u) && Exclusive(u) && Held(u)
            && forall id | OpenedHonestly(steps, id) :: Honest(u, id, AcksOf(Fresh(proxies), steps))
  {
    FreshStart(owner, proxies);
    InvRun(owner, Fresh(proxies), steps);
    ExclusiveRun(Fresh(proxies), steps);
    HeldRun(Fresh(proxies), steps);
    forall id | OpenedHonestly(steps, id)
      ensures Honest(RunTo(Fresh(proxies), steps), id, AcksOf(Fresh(proxies), steps))
    {
      HonestRun(Fresh(proxies), id, {}, steps);
      assert {} + AcksOf(Fresh(proxies), steps) == AcksOf(Fresh(proxies), steps);
    }
  }

  /** The add of its own process has succeeded for this task. */
  predicate AddSucceeded(t: Task) {
    && t.process.Some?
    && match t.phase
       case Added(answer) => Succeeded(answer)
       case Retried(answer) => Succeeded(answer)
       case Finished(ok) => ok
       case _ => false
  }

  /** At this step it does: the first add or the retried one is acknowledged. */
  predicate OwnAddAcknowledged(s: System, step: Step, i: nat)
    requires Enabled(s, step)
  {
    && i < |s.tasks| && s.tasks[i].process.Some? && (s.tasks[i].phase.Adding? || s.tasks[i].phase.Retrying?)
    && step.Send? && step.task == i && Acknowledges(s, step, s.tasks[i].id, s.tasks[i].process.value.pid)
  }

  /** Steps move tasks on, and do not change what the tasks are for. */
  lemma TaskKept(s: System, step: Step, i: nat)
    requires Enabled(s, step) && i < |s.tasks|
    ensures i < |Next(s, step).tasks|
    ensures Next(s, step).tasks[i] == s.tasks[i].(phase := Next(s, step).tasks[i].phase)
  {
  }

  lemma {:induction false} TaskKeptRun(s: System, steps: seq<Step>, i: nat)
    requires CanRun(s, steps) && i < |s.tasks|
    ensures i < |RunTo(s, steps).tasks|
    ensures RunTo(s, steps).tasks[i] == s.tasks[i].(phase := RunTo(s, steps).tasks[i].phase)
    decreases |steps|
  {
    if steps != [] {
      TaskKept(s, steps[0], i);
      TaskKeptRun(Next(s, steps[0]), steps[1..], i);
    }
  }

  lemma ManualStaysEmpty(s: System, step: Step)
    requires ManualEmpty(s) && Enabled(s, step)
    ensures ManualEmpty(Next(s, step))
  {
    forall i | 0 <= i < |Next(s, step).tasks| && Next(s, step).tasks[i].origin == Manual
      ensures Next(s, step).tasks[i].process.None?
    {
      if i < |s.tasks| {
        TaskKept(s, step, i);
      }
    }
  }

  lemma SuccessIsAcknowledged(s: System, step: Step, i: nat)
    requires ManualEmpty(s) && Enabled(s, step)
    requires i < |Next(s, step).tasks| && AddSucceeded(Next(s, step).tasks[i])
    requires i >= |s.tasks| || !AddSucceeded(s.tasks[i])
    ensures OwnAddAcknowledged(s, step, i)
  {
    if i < |s.tasks| {
      TaskKept(s, step, i);
    }
  }

  /** A task whose add has succeeded in a run got the acknowledgement at one of its steps. */
  lemma {:induction false} AcknowledgementFound(s: System, steps: seq<Step>, i: nat) returns (before: seq<Step>)
    requires ManualEmpty(s) && CanRun(s, steps)
    requires i < |RunTo(s, steps).tasks| && AddSucceeded(RunTo(s, steps).tasks[i])
    requires i >= |s.tasks| || !AddSucceeded(s.tasks[i])
    ensures before < steps && CanRun(s, before) && Enabled(RunTo(s, before), steps[|before|])
    ensures OwnAddAcknowledged(RunTo(s, before), steps[|before|], i)
    decreases |steps|
  {
    var u := Next(s, steps[0]);
    if i < |u.tasks| && AddSucceeded(u.tasks[i]) {
      SuccessIsAcknowledged(s, steps[0], i);
      before := [];
    } else {
      ManualStaysEmpty(s, steps[0]);
      var rest := AcknowledgementFound(u, steps[1..], i);
      before := [steps[0]] + rest;
      assert before[1..] == rest;
    }
  }

  /** A task that has ended successfully, with or without recovery, and whatever restarts and closes
      came before, got its own add acknowledged at some step of the run; from there on its process is
      routed to its session's endpoint for as long as nobody closes the session or restarts the
      service. */
  lemma SuccessfulAddRouted(owner: Pid -> string, proxies: map<string, ProxyHandle>, steps: seq<Step>, i: nat)
    returns (before: seq<Step>)
    requires OwnedRun(owner, Fresh(proxies), steps)
    requires i < |RunTo(Fresh(proxies), steps).tasks| && RunTo(Fresh(proxies), steps).tasks[i].process.Some?
    requires RunTo(Fresh(proxies), steps).tasks[i].phase == Finished(true)
    ensures before < steps && CanRun(Fresh(proxies), before)
    ensures Enabled(RunTo(Fresh(proxies), before), steps[|before|])
    ensures OwnAddAcknowledged(RunTo(Fresh(proxies), before), steps[|before|], i)
    ensures var t := RunTo(Fresh(proxies), steps).tasks[i];
            && owner(t.process.value.pid) == t.id
            && (Undisturbed(steps[|before| + 1..], t.id) ==>
                  RoutedWell(owner, RunTo(Fresh(proxies), steps), t.process.value.pid))
  {
    var s := Fresh(proxies);
    FreshStart(owner, proxies);
    before := AcknowledgementFound(s, steps, i);
    RunSplits(s, steps, before);
    assert forall step | step in before :: step in steps;
    InvRun(owner, s, before);
    OwnAddRouted(owner, RunTo(s, before), steps[|before|], steps[|before| + 1..], i);
  }

  lemma OwnAddRouted(owner: Pid -> string, s: System, step: Step, later: seq<Step>, i: nat)
    requires Inv(owner, s) && Enabled(s, step) && StepOwned(owner, step) && OwnAddAcknowledged(s, step, i)
    requires OwnedRun(owner, Next(s, step), later)
    ensures var u := RunTo(Next(s, step), later);
            && i < |u.tasks| && u.tasks[i].id == s.tasks[i].id && u.tasks[i].process == s.tasks[i].process
            && owner(s.tasks[i].process.value.pid) == s.tasks[i].id
            && (Undisturbed(later, s.tasks[i].id) ==> RoutedWell(owner, u, s.tasks[i].process.value.pid))
  {
    TaskKept(s, step, i);
    TaskKeptRun(Next(s, step), later, i);
    assert TaskOwned(owner, s.tasks[i]);
    if Undisturbed(later, s.tasks[i].id) {
      AcknowledgedStays(owner, s, step, later, s.tasks[i].id, s.tasks[i].process.value.pid);
    }
  }

  // ----- what starts a recovery -----

  /** Task `i` has run into a lost session: it has been told so, or recovers the session, or retries. */
  predicate MetLostSession(s: System, i: nat) {
    && i < |s.tasks| && s.tasks[i].origin != Manual
    && match s.tasks[i].phase
       case Opening => false
       case Opened(_) => false
       case Adding => false
       case Added(answer) => answer == Answered(Rejected(SessionNotFound))
       case Finished(_) => false
       case _ => true
  }

  /** At this step it does: its own first add is answered by a server that does not have the session. */
  predicate MeetsLostSession(s: System, step: Step, i: nat) {
    && i < |s.tasks| && s.tasks[i].phase.Adding? && s.tasks[i].id !in s.registry.sessions
    && step.Send? && step.task == i && step.loss == Delivered
  }

  lemma LostSessionMet(s: System, step: Step, i: nat)
    requires Enabled(s, step) && MetLostSession(Next(s, step), i) && !MetLostSession(s, i)
    ensures MeetsLostSession(s, step, i)
  {
    if i < |s.tasks| {
      TaskKept(s, step, i);
    }
  }

  /** Over every run, a task of the program's own that waits for the recovery lock, or is past it, got
      there because the server answered its add without having the session; no other refusal starts a
      recovery. */
  lemma {:induction false} RecoveryHasCause(s: System, steps: seq<Step>, i: nat) returns (before: seq<Step>)
    requires CanRun(s, steps) && MetLostSession(RunTo(s, steps), i) && !MetLostSession(s, i)
    ensures before < steps && CanRun(s, before) && Enabled(RunTo(s, before), steps[|before|])
    ensures MeetsLostSession(RunTo(s, before), steps[|before|], i)
    decreases |steps|
  {
    if MetLostSession(Next(s, steps[0]), i) {
      LostSessionMet(s, steps[0], i);
      before := [];
    } else {
      var rest := RecoveryHasCause(Next(s, steps[0]), steps[1..], i);
      before := [steps[0]] + rest;
      assert before[1..] == rest;
    }
  }

  /** Every other answer ends the add at once, with its own outcome, and touches neither locks nor
      the server. */
  lemma OtherAnswersEnd(s: System, i: nat)
    requires i < |s.tasks| && s.tasks[i].id in s.clients && s.tasks[i].phase.Added?
    ensures var answer, u := s.tasks[i].phase.answer, Next(s, Resume(i));
            && u.gates == s.gates && u.registry == s.registry && i < |u.tasks|
            && (u.tasks[i].phase == Waiting <==>
                  answer == Answered(Rejected(SessionNotFound)) && s.clients[s.tasks[i].id].endpoint != "")
            && (u.tasks[i].phase != Waiting ==> u.tasks[i].phase == Finished(answer == Answered(Accepted)))
  {
  }

  // ----- from a restart to a routed process -----

  /** The server would create the session of client `id`. */
  predicate Creatable(s: System, id: string) {
    id in s.clients && Create(s.registry, id, s.clients[id].endpoint).1.Accepted?
  }

  predicate ProcessRouted(owner: Pid -> string, s: System, t: Task) {
    t.process.Some? && RoutedWell(owner, s, t.process.value.pid)
  }

  /** How far a task has come whose requests all get through: the session is open once it has been
      created, nothing has failed but an add to a lost session, and after the acknowledgement the
      task's process is routed. */
  predicate GoesWell(owner: Pid -> string, s: System, i: nat) {
    && i < |s.tasks| && s.tasks[i].process.Some? && s.tasks[i].origin != Manual
    && Creatable(s, s.tasks[i].id)
    && var t := s.tasks[i];
       var open := t.id in s.registry.sessions;
       match t.phase
       case Opening => true
       case Opened(answer) => Succeeded(answer)
       case Adding => true
       case Added(answer) =>
         answer == Answered(Rejected(SessionNotFound)) || (Succeeded(answer) && ProcessRouted(owner, s, t))
       case Waiting => true
       case Creating => true
       case Created(answer) => Succeeded(answer) && open
       case Replaying(_, _) => open
       case Replayed(_, todo, _) => open && todo != []
       case Retrying => open
       case Retried(answer) => Succeeded(answer) && ProcessRouted(owner, s, t)
       case Finished(ok) => ok && ProcessRouted(owner, s, t)
  }

  /** Without a restart the registered endpoints stay, and so does what can be created. */
  lemma CreatableStays(owner: Pid -> string, s: System, step: Step, id: string)
    requires AllOwned(owner, s) && Enabled(s, step) && StepOwned(owner, step) && !step.Restart?
    requires Creatable(s, id)
    ensures Creatable(Next(s, step), id)
  {
    NextOwned(owner, s, step);
    RegistryNext(owner, s, step);
  }

  /** What other steps cannot take away from task `i`. */
  lemma WellBesides(owner: Pid -> string, s: System, step: Step, i: nat)
    requires Inv(owner, s) && Enabled(s, step) && StepOwned(owner, step) && GoesWell(owner, s, i)
    requires !Disrupts(step, s.tasks[i].id)
    ensures var t, u := s.tasks[i], Next(s, step);
            && (t.id in s.registry.sessions ==> t.id in u.registry.sessions)
            && (ProcessRouted(owner, s, t) ==> ProcessRouted(owner, u, t))
  {
    var t := s.tasks[i];
    assert TaskOwned(owner, t);
    if t.id in s.registry.sessions {
      SessionStepStays(owner, s, step, t.id);
    }
    if ProcessRouted(owner, s, t) {
      StepKeepsRoute(owner, s, step, t.process.value.pid);
    }
  }

  lemma SentGoesWell(owner: Pid -> string, s: System, i: nat)
    requires Inv(owner, s) && GoesWell(owner, s, i) && Enabled(s, Send(i, Delivered, true))
    ensures GoesWell(owner, Next(s, Send(i, Delivered, true)), i)
  {
    var step, t := Send(i, Delivered, true), s.tasks[i];
    assert TaskOwned(owner, t);
    CreatableStays(owner, s, step, t.id);
    WellBesides(owner, s, step, i);
    InvStep(owner, s, step);
    if t.phase.Adding? || t.phase.Retrying? {
      if t.id in s.registry.sessions {
        assert Acknowledges(s, step, t.id, t.process.value.pid);
        AcknowledgedIsRouted(s, step, t.id, t.process.value.pid);
        assert RoutedWell(owner, Next(s, step), t.process.value.pid);
      }
    }
  }

  lemma ResumedGoesWell(owner: Pid -> string, s: System, i: nat)
    requires Inv(owner, s) && GoesWell(owner, s, i) && Enabled(s, Resume(i))
    ensures GoesWell(owner, Next(s, Resume(i)), i)
  {
    var t := s.tasks[i];
    CreatableStays(owner, s, Resume(i), t.id);
    WellBesides(owner, s, Resume(i), i);
    TaskKept(s, Resume(i), i);
  }

  lemma GoesWellStep(owner: Pid -> string, s: System, step: Step, i: nat)
    requires Inv(owner, s) && Enabled(s, step) && StepOwned(owner, step) && GoesWell(owner, s, i)
    requires Smooth(step, i, s.tasks[i].id)
    ensures GoesWell(owner, Next(s, step), i) && Next(s, step).tasks[i].id == s.tasks[i].id
    ensures Next(s, step).tasks[i].process == s.tasks[i].process
  {
    TaskKept(s, step, i);
    if step.Send? && step.task == i {
      SentGoesWell(owner, s, i);
    } else if step == Resume(i) {
      ResumedGoesWell(owner, s, i);
    } else {
      CreatableStays(owner, s, step, s.tasks[i].id);
      if step != Acquire(i) {
        WellBesides(owner, s, step, i);
        TaskStays(owner, s, step, i);
      }
    }
  }

  /** The task's own steps, with requests that get through. */
  function OwnSteps(i: nat): set<Step> {
    {Send(i, Delivered, true), Resume(i), Acquire(i)}
  }

  /** How far a phase is from the end, and within a replay, how much is left to do. */
  function Distance(phase: Phase): (nat, nat) {
    match phase
    case Opening => (10, 0)
    case Opened(_) => (9, 0)
    case Adding => (8, 0)
    case Added(_) => (7, 0)
    case Waiting => (6, 0)
    case Creating => (5, 0)
    case Created(_) => (4, 0)
    case Replaying(todo, _) => (3, 2 * |todo| + 1)
    case Replayed(_, todo, _) => (3, 2 * |todo|)
    case Retrying => (2, 0)
    case Retried(_) => (1, 0)
    case Finished(_) => (0, 0)
  }

  predicate Nearer(p: Phase, q: Phase) {
    var (d, e) := (Distance(p), Distance(q));
    d.0 < e.0 || (d.0 == e.0 && d.1 < e.1)
  }

  /** No task ever goes back: a step of any kind leaves its phase as it is or brings it nearer to the
      end. */
  lemma NeverBack(s: System, step: Step, i: nat)
    requires Enabled(s, step) && i < |s.tasks|
    ensures i < |Next(s, step).tasks|
    ensures var before, after := s.tasks[i].phase, Next(s, step).tasks[i].phase;
            after == before || Nearer(after, before)
  {
    if step == Resume(i) {
      ResumedNearer(s, i);
    } else if step.Send? && step.task == i {
      SentNearer(s, step);
    } else {
      OthersStay(s, step, i);
    }
  }

  lemma ResumedNearer(s: System, i: nat)
    requires i < |s.tasks| && s.tasks[i].id in s.clients
    ensures i < |Resumed(s, i).tasks|
    ensures Resumed(s, i).tasks[i].phase == s.tasks[i].phase || Nearer(Resumed(s, i).tasks[i].phase, s.tasks[i].phase)
  {
  }

  lemma SentNearer(s: System, step: Step)
    requires Enabled(s, step) && step.Send?
    ensures step.task < |Next(s, step).tasks|
    ensures Nearer(Next(s, step).tasks[step.task].phase, s.tasks[step.task].phase)
  {
  }

  lemma OthersStay(s: System, step: Step, i: nat)
    requires Enabled(s, step) && i < |s.tasks|
    requires step != Resume(i) && !(step.Send? && step.task == i)
    ensures i < |Next(s, step).tasks|
    ensures Next(s, step).tasks[i].phase == if step == Acquire(i) then Creating else s.tasks[i].phase
  {
  }

  /** The step that takes a task on, if it does not wait for a held lock. */
  function OwnStep(s: System, i: nat): Step
    requires i < |s.tasks|
  {
    var phase := s.tasks[i].phase;
    if phase.Waiting? then Acquire(i)
    else if phase.Opening? || phase.Adding? || phase.Creating? || phase.Retrying? then Send(i, Delivered, true)
    else if phase.Replaying? && phase.todo != [] then Send(i, Delivered, true)
    else Resume(i)
  }

  lemma OwnStepTaken(s: System, i: nat)
    requires i < |s.tasks| && s.tasks[i].id in s.clients && !s.tasks[i].phase.Finished?
    requires s.tasks[i].phase.Adding? || s.tasks[i].phase.Retrying? ==> s.tasks[i].process.Some?
    requires s.tasks[i].phase.Replayed? ==> s.tasks[i].phase.todo != []
    requires s.tasks[i].phase.Waiting? ==> s.tasks[i].id !in s.gates
    ensures OwnStep(s, i) in OwnSteps(i) && Enabled(s, OwnStep(s, i))
    ensures i < |Next(s, OwnStep(s, i)).tasks|
    ensures Nearer(Next(s, OwnStep(s, i)).tasks[i].phase, s.tasks[i].phase)
  {
  }

  /** Such a task is never stuck: until it has ended, a step of its own brings it nearer to the end, or
      it waits for a recovery of its session in progress, and a step of that recovery brings that one
      nearer to its end. */
  lemma GoesOn(owner: Pid -> string, s: System, i: nat) returns (j: nat)
    requires Held(s) && GoesWell(owner, s, i) && !s.tasks[i].phase.Finished?
    ensures j == i || (s.tasks[i].phase.Waiting? && Recovers(s, s.tasks[i].id, j))
    ensures j < |s.tasks| && OwnStep(s, j) in OwnSteps(j) && Enabled(s, OwnStep(s, j))
    ensures j < |Next(s, OwnStep(s, j)).tasks|
    ensures Nearer(Next(s, OwnStep(s, j)).tasks[j].phase, s.tasks[j].phase)
  {
    j := i;
    if s.tasks[i].phase.Waiting? && s.tasks[i].id in s.gates {
      j :| Recovers(s, s.tasks[i].id, j);
    }
    OwnStepTaken(s, j);
  }

  /** Up to the lock, the task has still to take it. */
  predicate BeforeLock(phase: Phase) {
    Distance(phase).0 >= 6
  }

  lemma OwnStepKeepsLockFree(s: System, i: nat)
    requires i < |s.tasks| && Enabled(s, OwnStep(s, i)) && i < |Next(s, OwnStep(s, i)).tasks|
    requires BeforeLock(s.tasks[i].phase) ==> s.tasks[i].id !in s.gates
    requires Nearer(Next(s, OwnStep(s, i)).tasks[i].phase, s.tasks[i].phase)
    ensures BeforeLock(Next(s, OwnStep(s, i)).tasks[i].phase) ==> s.tasks[i].id !in Next(s, OwnStep(s, i)).gates
  {
  }

  /** With the lock free, its own steps alone lead to its
      process being routed. */
  lemma {:induction false} CanFinish(owner: Pid -> string, s: System, i: nat) returns (steps: seq<Step>)
    requires Inv(owner, s) && GoesWell(owner, s, i)
    requires BeforeLock(s.tasks[i].phase) ==> s.tasks[i].id !in s.gates
    ensures (forall step | step in steps :: step in OwnSteps(i)) && CanRun(s, steps)
    ensures var u := RunTo(s, steps);
            i < |u.tasks| && u.tasks[i].phase == Finished(true) && u.tasks[i].process == s.tasks[i].process
            && RoutedWell(owner, u, s.tasks[i].process.value.pid)
    decreases Distance(s.tasks[i].phase).0, Distance(s.tasks[i].phase).1
  {
    if s.tasks[i].phase.Finished? {
      steps := [];
    } else {
      var step := OwnStep(s, i);
      OwnStepTaken(s, i);
      OwnStepKeepsLockFree(s, i);
      GoesWellStep(owner, s, step, i);
      InvStep(owner, s, step);
      var rest := CanFinish(owner, Next(s, step), i);
      steps := [step] + rest;
      assert steps[1..] == rest;
    }
  }

  /** One step of the recovery that holds the lock: it goes on, or has released the lock. */
  lemma HolderStep(owner: Pid -> string, s: System, i: nat, j: nat)
    requires Inv(owner, s) && GoesWell(owner, s, i) && BeforeLock(s.tasks[i].phase)
    requires Recovers(s, s.tasks[i].id, j) && (s.tasks[j].phase.Replayed? ==> s.tasks[j].phase.todo != [])
    ensures Enabled(s, OwnStep(s, j))
    ensures var u, id := Next(s, OwnStep(s, j)), s.tasks[i].id;
            && Inv(owner, u) && GoesWell(owner, u, i) && u.tasks[i] == s.tasks[i]
            && j < |u.tasks| && Nearer(u.tasks[j].phase, s.tasks[j].phase)
            && (u.tasks[j].phase.Replayed? ==> u.tasks[j].phase.todo != [])
            && (Recovers(u, id, j) || id !in u.gates)
  {
    var step := OwnStep(s, j);
    OwnStepTaken(s, j);
    InvStep(owner, s, step);
    GoesWellStep(owner, s, step, i);
    TaskStays(owner, s, step, i);
    ReplayLeftStays(s, step, j);
    LockKeptOrReleased(s, j);
  }

  lemma LockKeptOrReleased(s: System, j: nat)
    requires j < |s.tasks| && InRecovery(s.tasks[j]) && Enabled(s, OwnStep(s, j))
    ensures var u := Next(s, OwnStep(s, j)); Recovers(u, s.tasks[j].id, j) || s.tasks[j].id !in u.gates
  {
  }

  lemma {:induction false} LockReleased(owner: Pid -> string, s: System, i: nat, j: nat) returns (steps: seq<Step>)
    requires Inv(owner, s) && GoesWell(owner, s, i) && BeforeLock(s.tasks[i].phase)
    requires Recovers(s, s.tasks[i].id, j) && (s.tasks[j].phase.Replayed? ==> s.tasks[j].phase.todo != [])
    ensures (forall step | step in steps :: step in OwnSteps(j)) && CanRun(s, steps)
    ensures var u := RunTo(s, steps);
            && Inv(owner, u) && GoesWell(owner, u, i) && u.tasks[i] == s.tasks[i] && s.tasks[i].id !in u.gates
    decreases Distance(s.tasks[j].phase).0, Distance(s.tasks[j].phase).1
  {
    var step := OwnStep(s, j);
    OwnStepTaken(s, j);
    HolderStep(owner, s, i, j);
    if s.tasks[i].id !in Next(s, step).gates {
      steps := [step];
      assert steps[1..] == [];
    } else {
      var rest := LockReleased(owner, Next(s, step), i, j);
      steps := [step] + rest;
      assert steps[1..] == rest;
    }
  }

  lemma {:induction false} RunJoins(s: System, a: seq<Step>, b: seq<Step>)
    requires CanRun(s, a) && CanRun(RunTo(s, a), b)
    ensures CanRun(s, a + b) && RunTo(s, a + b) == RunTo(RunTo(s, a), b)
    decreases |a|
  {
    if a == [] {
      assert a + b == b;
    } else {
      assert (a + b)[1..] == a[1..] + b;
      RunJoins(Next(s, a[0]), a[1..], b);
    }
  }

  /** And it can always be brought to its end: from every state in which the task has gone well, whoever
      holds the lock, steps of the recovery that holds it, if any, and steps of the task's own lead to
      its process being routed. */
  lemma CanAlwaysFinish(owner: Pid -> string, s: System, i: nat) returns (j: nat, steps: seq<Step>)
    requires Inv(owner, s) && Held(s) && GoesWell(owner, s, i)
    ensures j == i || Recovers(s, s.tasks[i].id, j)
    ensures (forall step | step in steps :: step in OwnSteps(i) + OwnSteps(j)) && CanRun(s, steps)
    ensures var u := RunTo(s, steps);
            i < |u.tasks| && u.tasks[i].phase == Finished(true) && u.tasks[i].process == s.tasks[i].process
            && RoutedWell(owner, u, s.tasks[i].process.value.pid)
  {
    j := i;
    if BeforeLock(s.tasks[i].phase) && s.tasks[i].id in s.gates {
      j :| Recovers(s, s.tasks[i].id, j);
      var first := LockReleased(owner, s, i, j);
      var rest := CanFinish(owner, RunTo(s, first), i);
      RunJoins(s, first, rest);
      steps := first + rest;
    } else {
      steps := CanFinish(owner, s, i);
    }
  }

  predicate SmoothFor(steps: seq<Step>, i: nat, id: string) {
    forall step | step in steps :: Smooth(step, i, id)
  }

  lemma {:induction false} GoesWellRun(owner: Pid -> string, s: System, steps: seq<Step>, i: nat)
    requires Inv(owner, s) && OwnedRun(owner, s, steps) && GoesWell(owner, s, i)
    requires SmoothFor(steps, i, s.tasks[i].id)
    ensures GoesWell(owner, RunTo(s, steps), i) && RunTo(s, steps).tasks[i].process == s.tasks[i].process
    decreases |steps|
  {
    if steps != [] {
      InvStep(owner, s, steps[0]);
      GoesWellStep(owner, s, steps[0], i);
      GoesWellRun(owner, Next(s, steps[0]), steps[1..], i);
    }
  }

  /** From a restart to a routed process: the service restarts in the middle of any run, with the
      session's endpoint among its proxies again, and task `i` has yet to add its process or is about
      to create the session anew. Whatever the other tasks do from there on, if none of the task's own
      requests gets lost or refused, the session is not closed and the service stays up, the task can
      only end successfully, and then its process is routed to the session's endpoint. Until then it
      has gone well, so that it can always be brought to that end. */
  lemma RestartToRouted(owner: Pid -> string, s: System, proxies: map<string, ProxyHandle>, steps: seq<Step>, i: nat)
    requires Inv(owner, s) && i < |s.tasks| && s.tasks[i].process.Some? && s.tasks[i].origin != Manual
    requires var phase := s.tasks[i].phase; phase.Opening? || phase.Adding? || phase.Waiting? || phase.Creating?
    requires var u := Next(s, Restart(proxies));
             && Creatable(u, s.tasks[i].id) && OwnedRun(owner, u, steps) && SmoothFor(steps, i, s.tasks[i].id)
    ensures var u := RunTo(Next(s, Restart(proxies)), steps);
            && Inv(owner, u) && GoesWell(owner, u, i) && u.tasks[i].process == s.tasks[i].process
            && (u.tasks[i].phase.Finished? ==>
                  u.tasks[i].phase == Finished(true) && RoutedWell(owner, u, s.tasks[i].process.value.pid))
  {
    InvStep(owner, s, Restart(proxies));
    InvRun(owner, Next(s, Restart(proxies)), steps);
    GoesWellRun(owner, Next(s, Restart(proxies)), steps, i);
  }

  /** Which resumptions turn a status active: the end of a replay that got something through, and
      the end of an acknowledged add, by its origin. All but the root of a launched target look at
      the session before they do. */
  predicate Activates(t: Task, client: Client) {
    match t.phase
    case Replaying(todo, replayed) => todo == [] && replayed > 0 && !client.finished
    case Added(answer) => Succeeded(answer) && ActivatesAs(t.origin, client)
    case Retried(answer) => Succeeded(answer) && ActivatesAs(t.origin, client)
    case _ => false
  }

  predicate ActivatesAs(origin: Origin, client: Client) {
    || origin.TargetRoot?
    || (origin.ExeRoot? && !client.finished)
    || (origin.Child? && client.routing == SessionCreated)
  }

  lemma ActivationExact(s: System, step: Step, id: string)
    requires Enabled(s, step) && id in s.clients && s.clients[id].ipcManaged && s.clients[id].routing != Active
    ensures id in Next(s, step).clients
    ensures Next(s, step).clients[id].routing == Active <==>
      step.Resume? && s.tasks[step.task].id == id && Activates(s.tasks[step.task], s.clients[id])
  {
  }

  // ----- how sessions open -----

  datatype Backend = Unusable | Running | Stopped

  /** A session of a launched program. The pipe is probed once for the routing status, and once
      more for the way of routing, and only a status won over the pipe makes use of the latter. */
  function Launched(endpoint: string, root: seq<Process>, first: bool, second: bool, fallback: RoutingStatus): Client {
    var routing := if first then SessionCreated else fallback;
    Client(endpoint, root, false, routing == SessionCreated && second, routing)
  }

  /** A session of a program started elsewhere. Here the two probes are independent. */
  function AttachedExternally(endpoint: string, root: seq<Process>, routeIpc: bool, first: bool, second: bool,
                              backend: Backend): Client {
    var otherwise := match backend case Unusable => External case Running => Active case Stopped => NeedsRestart;
    Client(endpoint, root, false, routeIpc && second, if routeIpc && first then SessionCreated else otherwise)
  }

  lemma LaunchOpensHonestly(id: string, endpoint: string, root: seq<Process>, first: bool, second: bool,
                            fallback: RoutingStatus)
    ensures OpensHonestly(Open(id, Launched(endpoint, root, first, second, fallback)), id)
  {
  }

  /** An externally started session opens dishonestly exactly when the pipe comes up between the
      two probes while the service is running. */
  lemma AttachOpensHonestly(id: string, endpoint: string, root: seq<Process>, routeIpc: bool, first: bool,
                            second: bool, backend: Backend)
    ensures OpensHonestly(Open(id, AttachedExternally(endpoint, root, routeIpc, first, second, backend)), id)
       <==> !(routeIpc && !first && second && backend == Running)
  {
  }

  /** Then it shows an active route before anything has been acknowledged. */
  lemma DishonestAttach(id: string, endpoint: string, root: seq<Process>, s: System)
    requires id !in s.clients
    ensures var step := Open(id, AttachedExternally(endpoint, root, true, false, true, Running));
            && CanRun(s, [step]) && AcksOf(s, [step]) == {}
            && id in RunTo(s, [step]).clients
            && RunTo(s, [step]).clients[id].ipcManaged && RunTo(s, [step]).clients[id].routing == Active
  {
  }
}
