/** The recovery protocol once more, by effects instead of by steps: when tasks end and how, what
    changes a routing status, who takes and gives back a lock, and what the client's other steps do. */
module RecoveryEffects {
  import opened Wrappers
  import opened SessionRegistry
  import opened IpcRecovery

  predicate Acknowledged(answer: Answer) {
    answer == Answered(Accepted)
  }

  /** The answer to an add that starts a recovery. */
  predicate StartsRecovery(s: System, t: Task, answer: Answer) {
    t.id in s.clients && s.clients[t.id].endpoint != "" && answer == Answered(Rejected(SessionNotFound))
  }

  /** How a task ends when it goes on from here, if it does. */
  function EndOf(s: System, t: Task): Option<bool> {
    match t.phase
    case Opened(answer) =>
      if Acknowledged(answer) then (if t.process == None then Some(true) else None) else Some(false)
    case Added(answer) => if StartsRecovery(s, t, answer) then None else Some(Acknowledged(answer))
    case Created(answer) => if Acknowledged(answer) then None else Some(false)
    case Replaying(todo, _) => if todo == [] && t.origin == Manual then Some(true) else None
    case Retried(answer) => Some(Acknowledged(answer))
    case _ => None
  }

  /** When a task ends, and how: with a session opened only for itself, with its first add, with a
      session that cannot be created, with the last add of a replay by hand, or with its second add. */
  lemma EndsExact(s: System, step: Step, i: nat)
    requires Enabled(s, step) && i < |s.tasks| && !s.tasks[i].phase.Finished?
    ensures i < |Next(s, step).tasks|
    ensures var phase := Next(s, step).tasks[i].phase;
            phase.Finished? <==> step == Resume(i) && EndOf(s, s.tasks[i]).Some?
    ensures Next(s, step).tasks[i].phase.Finished? ==>
      Next(s, step).tasks[i].phase == Finished(EndOf(s, s.tasks[i]).value)
  {
    TaskKept(s, step, i);
  }

  /** When a routing status turns to failed: a session that cannot be opened, a launched target whose
      root cannot be added, or the client's own doing. */
  lemma FailedExact(s: System, step: Step, id: string)
    requires Enabled(s, step) && id in s.clients && s.clients[id].routing != RoutingStatus.Failed
    ensures id in Next(s, step).clients
    ensures Next(s, step).clients[id].routing == RoutingStatus.Failed <==>
      || step == Fail(id)
      || step == Apply(id, RoutingStatus.Failed)
      || (step.Resume? && s.tasks[step.task].id == id && EndOf(s, s.tasks[step.task]) == Some(false)
          && (s.tasks[step.task].phase.Opened? || s.tasks[step.task].origin == TargetRoot))
  {
    if step.Resume? {
      ResumedFailed(s, step.task, id);
    }
  }

  lemma ResumedFailed(s: System, i: nat, id: string)
    requires i < |s.tasks| && s.tasks[i].id in s.clients
    requires id in s.clients && s.clients[id].routing != RoutingStatus.Failed
    ensures id in Resumed(s, i).clients
    ensures var t := s.tasks[i];
            Resumed(s, i).clients[id].routing == RoutingStatus.Failed <==>
              t.id == id && EndOf(s, t) == Some(false) && (t.phase.Opened? || t.origin == TargetRoot)
  {
  }

  /** Every other status is only ever applied by the client itself. */
  lemma OtherStatusesApplied(s: System, step: Step, id: string)
    requires Enabled(s, step) && id in s.clients
    ensures id in Next(s, step).clients
    ensures var routing := Next(s, step).clients[id].routing;
            routing != s.clients[id].routing && routing != Active && routing != RoutingStatus.Failed ==>
              step == Apply(id, routing)
    ensures step.Apply? && step.id == id ==> Next(s, step).clients[id].routing == step.routing
  {
  }

  /** What else the client keeps of a session changes only when its processes do. */
  lemma ClientAfter(s: System, step: Step, id: string)
    requires Enabled(s, step) && id in s.clients
    ensures id in Next(s, step).clients
    ensures var before, after := s.clients[id], Next(s, step).clients[id];
            && after.endpoint == before.endpoint && after.ipcManaged == before.ipcManaged
            && (step.Change? && step.id == id ==> after.live == step.live && after.finished == step.finished)
            && (!(step.Change? && step.id == id) ==> after.live == before.live && after.finished == before.finished)
  {
    if step.Resume? {
      ResumedClient(s, step.task, id);
    }
  }

  lemma ResumedClient(s: System, i: nat, id: string)
    requires i < |s.tasks| && s.tasks[i].id in s.clients && id in s.clients
    ensures id in Resumed(s, i).clients
    ensures Resumed(s, i).clients[id] == s.clients[id].(routing := Resumed(s, i).clients[id].routing)
  {
  }

  /** Clients and tasks come in one at a time, and none goes away. */
  lemma ComesIn(s: System, step: Step)
    requires Enabled(s, step)
    ensures Next(s, step).clients.Keys == s.clients.Keys + (if step.Open? then {step.id} else {})
    ensures step.Open? ==> Next(s, step).clients[step.id] == step.client
    ensures step.Begin? ==> Next(s, step).tasks == s.tasks + [step.start]
    ensures !step.Begin? ==> |Next(s, step).tasks| == |s.tasks|
  {
  }

  /** Locks: one is taken by a task that waits for it and is given back when its recovery fails to
      create the session or has nothing left to replay. */
  lemma LocksAfter(s: System, step: Step, id: string)
    requires Enabled(s, step)
    ensures id in Next(s, step).gates <==>
      || (step.Acquire? && s.tasks[step.task].id == id)
      || (id in s.gates
          && !(step.Resume? && s.tasks[step.task].id == id
               && var phase := s.tasks[step.task].phase;
                  || (phase.Created? && !Acknowledged(phase.answer))
                  || (phase.Replaying? && phase.todo == [])))
  {
  }

  /** The server: a request that arrives is served whether or not its answer gets back, a restart
      forgets all sessions and routes, and nothing else reaches it. */
  lemma ServerAfter(s: System, step: Step)
    requires Enabled(s, step)
    ensures match step
            case Send(i, loss, associates) =>
              loss == LostBefore ==> Next(s, step).registry == s.registry
            case CloseDelivered(id) => Next(s, step).registry == Serve(s.registry, CloseSession(id)).0
            case Restart(proxies) =>
              var r := Next(s, step).registry;
              r.sessions == map[] && r.router == map[] && r.proxies == proxies
            case _ => Next(s, step).registry == s.registry
  {
  }

  /** What a task sends, by where it stands, and that it is served when it arrives. */
  lemma SendsExact(s: System, i: nat, loss: Loss, associates: bool)
    requires Enabled(s, Send(i, loss, associates)) && loss != LostBefore
    ensures var t, r := s.tasks[i], Next(s, Send(i, loss, associates)).registry;
            match t.phase
            case Opening => r == Serve(s.registry, CreateSession(t.id, s.clients[t.id].endpoint)).0
            case Creating => r == Serve(s.registry, CreateSession(t.id, s.clients[t.id].endpoint)).0
            case Replaying(todo, _) =>
              todo != [] && r == Serve(s.registry, AddPid(t.id, todo[0].pid, todo[0].createdAt, associates)).0
            case _ =>
              t.process.Some?
              && r == Serve(s.registry, AddPid(t.id, t.process.value.pid, t.process.value.createdAt, associates)).0
  {
  }

  /** Who starts how: roots open their session first, those of an executable only with an endpoint;
      a replay by hand waits for the lock, without a process of its own; others add at once. */
  lemma StartsExact(s: System, t: Task)
    requires t.id in s.clients && s.clients[t.id].ipcManaged
    ensures var endpoint := s.clients[t.id].endpoint;
            Enabled(s, Begin(t)) <==>
              || (t.origin == TargetRoot && t.phase == Opening)
              || (t.origin == ExeRoot && t.phase == Opening && endpoint != "")
              || (t.origin == Manual && t.phase == Waiting && t.process == None && endpoint != "")
              || ((t.origin == Child || t.origin == Quiet) && t.phase == Adding)
  {
  }

  /** A close may arrive at any time, and the client may give up on any session it has. */
  lemma AlwaysEnabled(s: System, id: string, proxies: map<string, ProxyHandle>)
    ensures Enabled(s, CloseDelivered(id)) && Enabled(s, Restart(proxies))
    ensures Enabled(s, Fail(id)) <==> id in s.clients
    ensures Enabled(s, Open(id, Client("", [], false, false, RoutingStatus.External))) <==> id !in s.clients
  {
  }

  /** What a session shows when it opens: launched, its status over the pipe or the fallback, and
      managed over the pipe only with the former; from outside, by pipe, service and neither. */
  lemma OpeningStatus(endpoint: string, root: seq<Process>, first: bool, second: bool, routeIpc: bool,
                      fallback: RoutingStatus, backend: Backend)
    ensures var launched := Launched(endpoint, root, first, second, fallback);
            && launched.endpoint == endpoint && launched.live == root && !launched.finished
            && (first ==> launched.routing == RoutingStatus.SessionCreated && launched.ipcManaged == second)
            && (!first ==> launched.routing == fallback)
            && (launched.ipcManaged ==> second && launched.routing == RoutingStatus.SessionCreated)
    ensures var attached := AttachedExternally(endpoint, root, routeIpc, first, second, backend);
            && attached.endpoint == endpoint && attached.live == root && !attached.finished
            && (attached.ipcManaged <==> routeIpc && second)
            && (attached.routing == RoutingStatus.SessionCreated <==> routeIpc && first)
            && (attached.routing == RoutingStatus.External <==> !(routeIpc && first) && backend == Unusable)
            && (attached.routing == Active <==> !(routeIpc && first) && backend == Backend.Running)
            && (attached.routing == RoutingStatus.NeedsRestart <==> !(routeIpc && first) && backend == Backend.Stopped)
  {
  }
}
