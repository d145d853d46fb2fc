/** One recovery of a session that runs without interruption, as the client's code goes through it:
    createSession, then a loop that replays the live processes and counts the acknowledgements. */
module SequentialRecovery {
  import opened SessionRegistry
  import opened Text
  import opened IpcRecovery

  /** The adds of a replay; `refused` are the PIDs the router does not take. */
  function Replays(id: string, live: seq<Process>, refused: set<Pid>): seq<Request> {
    seq(|live|, i requires 0 <= i < |live| => AddPid(id, live[i].pid, live[i].createdAt, live[i].pid !in refused))
  }

  /** The registry after a recovery. */
  function Recovered(r: Registry, id: string, endpoint: string, live: seq<Process>, refused: set<Pid>): Registry {
    Run(Create(r, id, endpoint).0, Replays(id, live, refused))
  }

  function Taken(live: seq<Process>, refused: set<Pid>): set<Pid> {
    set p | p in live && p.pid !in refused :: p.pid
  }

  /** The creation time under which the list has the process; the last entry counts. */
  function CreatedAtIn(live: seq<Process>, pid: Pid): (createdAt: int)
    requires exists p :: p in live && p.pid == pid
    ensures exists p :: p in live && p.pid == pid && p.createdAt == createdAt
  {
    var last := live[|live| - 1];
    if last.pid == pid then last.createdAt else CreatedAtIn(live[..|live| - 1], pid)
  }

  function CountTaken(live: seq<Process>, refused: set<Pid>): nat {
    if live == [] then 0
    else CountTaken(live[..|live| - 1], refused) + if live[|live| - 1].pid in refused then 0 else 1
  }

  /** The replay, one add further. */
  lemma ReplayNext(r: Registry, id: string, live: seq<Process>, refused: set<Pid>, i: nat)
    requires i < |live|
    ensures var requests := Replays(id, live, refused);
            && Run(r, requests[..i + 1]) == Serve(Run(r, requests[..i]), requests[i]).0
            && CountTaken(live[..i + 1], refused) ==
               CountTaken(live[..i], refused) + (if live[i].pid in refused then 0 else 1)
  {
    assert Replays(id, live, refused)[..i + 1][..i] == Replays(id, live, refused)[..i];
    assert live[..i + 1][..i] == live[..i];
  }

  class RoutedSession {
    const id: string
    const endpoint: string
    var processes: seq<Process>
    var finished: bool
    var routing: RoutingStatus

    constructor (id: string, endpoint: string, processes: seq<Process>)
      ensures this.id == id && this.endpoint == endpoint && this.processes == processes
      ensures !finished && routing == SessionCreated
    {
      this.id, this.endpoint, this.processes := id, endpoint, processes;
      finished, routing := false, SessionCreated;
    }

    method RecreateIpcSessionAndReplay(server: SessionRouteServer, refused: set<Pid>) returns (recovered: bool)
      requires !IsBlank(id)
      modifies this`routing, server, server.socksify
      ensures recovered <==> endpoint != "" && Create(old(server.View()), id, endpoint).1.Accepted?
      ensures server.View() ==
        if recovered then Recovered(old(server.View()), id, endpoint, processes, refused) else old(server.View())
      ensures routing == if recovered && !finished && CountTaken(processes, refused) > 0 then Active else old(routing)
    {
      if endpoint == "" {
        return false;
      }
      var created := server.DoCreateSession(id, endpoint);
      if !created.Accepted? {
        return false;
      }
      ghost var r := Create(old(server.View()), id, endpoint).0;
      ghost var requests := Replays(id, processes, refused);
      var replayed := 0;
      var i := 0;
      while i < |processes|
        invariant 0 <= i <= |processes|
        invariant server.View() == Run(r, requests[..i])
        invariant id in server.sessions
        invariant replayed == CountTaken(processes[..i], refused)
        invariant routing == old(routing)
      {
        var reply := server.DoAddPid(id, processes[i].pid, processes[i].createdAt, processes[i].pid !in refused);
        ReplayNext(r, id, processes, refused, i);
        if reply.Accepted? {
          replayed := replayed + 1;
        }
        i := i + 1;
      }
      assert requests[..|processes|] == requests && processes[..|processes|] == processes;
      if replayed > 0 && !finished {
        routing := Active;
      }
      return true;
    }
  }

  lemma {:induction false} ReplayLast(r: Registry, id: string, live: seq<Process>, refused: set<Pid>)
    requires live != []
    ensures var init, last := live[..|live| - 1], live[|live| - 1];
            && Run(r, Replays(id, live, refused))
               == Add(Run(r, Replays(id, init, refused)), id, last.pid, last.createdAt, last.pid !in refused).0
            && Taken(live, refused) == Taken(init, refused) + (if last.pid in refused then {} else {last.pid})
  {
    var init, last := live[..|live| - 1], live[|live| - 1];
    assert Replays(id, live, refused)[..|live| - 1] == Replays(id, init, refused);
    assert live == init + [last];
  }

  /** What the replay builds up, after any number of its adds. */
  lemma {:induction false} ReplayExact(r: Registry, id: string, live: seq<Process>, refused: set<Pid>)
    requires id in r.sessions && !IsBlank(id)
    ensures var s := Run(r, Replays(id, live, refused));
            && s.proxies == r.proxies && s.sessions.Keys == r.sessions.Keys
            && s.sessions[id] == r.sessions[id].(pids := r.sessions[id].pids + Taken(live, refused))
            && (forall other | other in r.sessions && other != id :: s.sessions[other] == r.sessions[other])
            && s.router.Keys == r.router.Keys + Taken(live, refused)
            && (forall pid | pid in Taken(live, refused) ::
                  s.router[pid] == PidRoute(r.sessions[id].proxy, CreatedAtIn(live, pid)))
            && (forall pid | pid in r.router && pid !in Taken(live, refused) :: s.router[pid] == r.router[pid])
  {
    if live != [] {
      var init, last := live[..|live| - 1], live[|live| - 1];
      ReplayExact(r, id, init, refused);
      ReplayLast(r, id, live, refused);
    }
  }

  /** A recovery leaves the session with exactly the live processes the router took, each of them
      routed to the session's proxy with its creation time, and touches no other session or route. Of
      the PIDs the session had before, those that are neither taken again nor listed elsewhere become
      orphans: they stay routed, but closing the session no longer unroutes them. */
  lemma RecoveryExact(r: Registry, id: string, endpoint: string, live: seq<Process>, refused: set<Pid>)
    requires Create(r, id, endpoint).1.Accepted?
    ensures var s, taken := Recovered(r, id, endpoint, live, refused), Taken(live, refused);
            && id in s.sessions && s.sessions[id] == SessionState(endpoint, r.proxies[endpoint], taken)
            && (forall other | other in r.sessions && other != id ::
                  other in s.sessions && s.sessions[other] == r.sessions[other])
            && (forall pid | pid in r.router && pid !in taken :: pid in s.router && s.router[pid] == r.router[pid])
            && (forall pid | pid in taken ::
                  pid in s.router && s.router[pid] == PidRoute(r.proxies[endpoint], CreatedAtIn(live, pid)))
  {
    ReplayExact(Create(r, id, endpoint).0, id, live, refused);
  }

  /** The orphans after a recovery, in any registry: of those there were before, and of the replaced
      session's routed PIDs that no other session lists, the ones that are not taken. */
  lemma RecoveryOrphans(r: Registry, id: string, endpoint: string, live: seq<Process>, refused: set<Pid>, pid: Pid)
    requires Create(r, id, endpoint).1.Accepted?
    ensures pid in Orphans(Recovered(r, id, endpoint, live, refused)) <==>
      && pid !in Taken(live, refused)
      && (|| pid in Orphans(r)
          || (id in r.sessions && pid in r.sessions[id].pids && pid in r.router && !OwnedByOther(r, pid, id)))
  {
    var c, s, taken := Create(r, id, endpoint).0, Recovered(r, id, endpoint, live, refused), Taken(live, refused);
    ReplayExact(c, id, live, refused);
    OrphansExact(r, CreateSession(id, endpoint));
    if Owned(s, pid) {
      var owner :| owner in s.sessions && pid in s.sessions[owner].pids;
      assert owner == id || (owner in c.sessions && pid in c.sessions[owner].pids);
    }
    if Owned(c, pid) {
      var owner :| owner in c.sessions && pid in c.sessions[owner].pids;
      assert owner in s.sessions && pid in s.sessions[owner].pids;
    }
    if pid in taken {
      assert pid in s.sessions[id].pids;
    }
  }

  // ----- the interleaved steps, when nothing interferes -----

  /** The steps lead from one system to the other. */
  predicate Leads(s: System, steps: seq<Step>, end: System) {
    CanRun(s, steps) && RunTo(s, steps) == end
  }

  lemma Chain(s: System, a: seq<Step>, middle: System, b: seq<Step>, end: System)
    requires Leads(s, a, middle) && Leads(middle, b, end)
    ensures Leads(s, a + b, end)
  {
    RunJoins(s, a, b);
  }

  lemma OneStep(s: System, step: Step)
    requires Enabled(s, step)
    ensures Leads(s, [step], Next(s, step))
  {
    assert [step][1..] == [] && RunTo(Next(s, step), [step][1..]) == Next(s, step);
  }

  lemma TwoSteps(s: System, first: Step, second: Step)
    requires Enabled(s, first) && Enabled(Next(s, first), second)
    ensures Leads(s, [first, second], Next(Next(s, first), second))
  {
    OneStep(s, first);
    OneStep(Next(s, first), second);
    Chain(s, [first], Next(s, first), [second], Next(Next(s, first), second));
    assert [first] + [second] == [first, second];
  }

  /** Task `i` of `s` at a phase, with a registry. */
  function At(s: System, i: nat, registry: Registry, phase: Phase): System
    requires i < |s.tasks|
  {
    WithPhase(s.(registry := registry), i, phase)
  }

  /** Task `i` can speak for its session, which `r` has open. */
  predicate Attached(s: System, i: nat, r: Registry) {
    && i < |s.tasks| && s.tasks[i].id in s.clients
    && s.tasks[i].id in r.sessions && !IsBlank(s.tasks[i].id)
  }

  /** A request is sent and answered, and the task goes on. */
  function Exchange(i: nat, taken: bool): seq<Step> {
    [Send(i, Delivered, taken), Resume(i)]
  }

  /** One exchange of the replay loop for each live process. */
  function ReplaySteps(i: nat, live: seq<Process>, refused: set<Pid>): seq<Step>
    decreases |live|
  {
    if live == [] then [] else Exchange(i, live[0].pid !in refused) + ReplaySteps(i, live[1..], refused)
  }

  lemma ReplayTurn(s: System, i: nat, r: Registry, todo: seq<Process>, replayed: nat, taken: bool)
    requires Attached(s, i, r) && todo != []
    ensures var added := Serve(r, AddPid(s.tasks[i].id, todo[0].pid, todo[0].createdAt, taken)).0;
            && Attached(s, i, added)
            && Leads(At(s, i, r, Replaying(todo, replayed)), Exchange(i, taken),
                     At(s, i, added, Replaying(todo[1..], replayed + (if taken then 1 else 0))))
  {
    var (added, reply) := Serve(r, AddPid(s.tasks[i].id, todo[0].pid, todo[0].createdAt, taken));
    var t := At(s, i, r, Replaying(todo, replayed));
    var u := At(s, i, added, Replayed(Answered(reply), todo, replayed));
    assert Next(t, Send(i, Delivered, taken)) == u;
    assert Next(u, Resume(i)) == At(s, i, added, Replaying(todo[1..], replayed + (if taken then 1 else 0)));
    TwoSteps(t, Send(i, Delivered, taken), Resume(i));
  }

  lemma {:induction false} ReplaysFirst(id: string, live: seq<Process>, refused: set<Pid>)
    requires live != []
    ensures Replays(id, live, refused)
         == [AddPid(id, live[0].pid, live[0].createdAt, live[0].pid !in refused)] + Replays(id, live[1..], refused)
  {
  }

  lemma {:induction false} CountFirst(live: seq<Process>, refused: set<Pid>)
    requires live != []
    ensures CountTaken(live, refused) == CountTaken(live[1..], refused) + (if live[0].pid in refused then 0 else 1)
    decreases |live|
  {
    if |live| > 1 {
      CountFirst(live[..|live| - 1], refused);
      assert live[..|live| - 1][1..] == live[1..][..|live| - 2];
    }
  }

  lemma {:induction false} ServeFirst(r: Registry, q: Request, qs: seq<Request>)
    ensures SessionRegistry.Run(r, [q] + qs) == SessionRegistry.Run(Serve(r, q).0, qs)
    decreases |qs|
  {
    if qs == [] {
      assert [q] + qs == [q] && [q][..0] == [];
    } else {
      assert ([q] + qs)[..|qs|] == [q] + qs[..|qs| - 1];
      ServeFirst(r, q, qs[..|qs| - 1]);
    }
  }

  /** The replay of `todo` has been gone through. */
  function ReplayedTo(s: System, i: nat, r: Registry, todo: seq<Process>, refused: set<Pid>, replayed: nat): System
    requires i < |s.tasks|
  {
    At(s, i, SessionRegistry.Run(r, Replays(s.tasks[i].id, todo, refused)),
       Replaying([], replayed + CountTaken(todo, refused)))
  }

  lemma {:induction false} ReplayedFirst(s: System, i: nat, r: Registry, todo: seq<Process>, refused: set<Pid>,
                                         replayed: nat)
    requires i < |s.tasks| && todo != []
    ensures var taken := todo[0].pid !in refused;
            var added := Serve(r, AddPid(s.tasks[i].id, todo[0].pid, todo[0].createdAt, taken)).0;
            ReplayedTo(s, i, r, todo, refused, replayed)
              == ReplayedTo(s, i, added, todo[1..], refused, replayed + (if taken then 1 else 0))
  {
    var id := s.tasks[i].id;
    ReplaysFirst(id, todo, refused);
    CountFirst(todo, refused);
    ServeFirst(r, AddPid(id, todo[0].pid, todo[0].createdAt, todo[0].pid !in refused), Replays(id, todo[1..], refused));
  }

  lemma {:induction false} ReplayLoop(s: System, i: nat, r: Registry, todo: seq<Process>, refused: set<Pid>,
                                      replayed: nat)
    requires Attached(s, i, r)
    ensures Leads(At(s, i, r, Replaying(todo, replayed)), ReplaySteps(i, todo, refused),
                  ReplayedTo(s, i, r, todo, refused, replayed))
    decreases |todo|
  {
    if todo == [] {
      assert Replays(s.tasks[i].id, todo, refused) == [];
    } else {
      var taken := todo[0].pid !in refused;
      var added := Serve(r, AddPid(s.tasks[i].id, todo[0].pid, todo[0].createdAt, taken)).0;
      var turned := At(s, i, added, Replaying(todo[1..], replayed + (if taken then 1 else 0)));
      ReplayTurn(s, i, r, todo, replayed, taken);
      ReplayedFirst(s, i, r, todo, refused, replayed);
      ReplayLoop(s, i, added, todo[1..], refused, replayed + (if taken then 1 else 0));
      Chain(At(s, i, r, Replaying(todo, replayed)), Exchange(i, taken), turned,
            ReplaySteps(i, todo[1..], refused), ReplayedTo(s, i, r, todo, refused, replayed));
    }
  }

  /** Task `i` is about to add its process to a session that the server does not have, the session's
      endpoint is registered, and nobody else is recovering it. */
  predicate FacesLostSession(s: System, i: nat) {
    && i < |s.tasks| && s.tasks[i].phase == Adding && s.tasks[i].process.Some? && s.tasks[i].origin != Manual
    && s.tasks[i].id in s.clients && s.tasks[i].id !in s.gates && s.tasks[i].id !in s.registry.sessions
    && Create(s.registry, s.tasks[i].id, s.clients[s.tasks[i].id].endpoint).1.Accepted?
  }

  /** The add runs into the lost session. */
  lemma AddRefused(s: System, i: nat)
    requires FacesLostSession(s, i)
    ensures Leads(s, Exchange(i, true), At(s, i, s.registry, Waiting))
  {
    var s1 := At(s, i, s.registry, Added(Answered(Rejected(SessionNotFound))));
    assert Next(s, Send(i, Delivered, true)) == s1;
    assert Next(s1, Resume(i)) == At(s, i, s.registry, Waiting);
    TwoSteps(s, Send(i, Delivered, true), Resume(i));
  }

  /** The session is created again, under its lock, and the live processes are listed. */
  lemma SessionCreatedAgain(s: System, i: nat)
    requires FacesLostSession(s, i)
    ensures var id, client := s.tasks[i].id, s.clients[s.tasks[i].id];
            Leads(At(s, i, s.registry, Waiting), [Acquire(i)] + Exchange(i, true),
                  At(s.(gates := s.gates + {id}), i,
                     Create(s.registry, id, client.endpoint).0, Replaying(client.live, 0)))
  {
    var id, client := s.tasks[i].id, s.clients[s.tasks[i].id];
    var locked := s.(gates := s.gates + {id});
    var created := Create(s.registry, id, client.endpoint).0;
    var s2 := At(s, i, s.registry, Waiting);
    var s3 := At(locked, i, s.registry, Creating);
    var s4 := At(locked, i, created, Created(Answered(Accepted)));
    var s5 := At(locked, i, created, Replaying(client.live, 0));
    assert Next(s2, Acquire(i)) == s3;
    OneStep(s2, Acquire(i));
    assert Next(s3, Send(i, Delivered, true)) == s4;
    assert Next(s4, Resume(i)) == s5;
    TwoSteps(s3, Send(i, Delivered, true), Resume(i));
    Chain(s2, [Acquire(i)], s3, Exchange(i, true), s5);
  }

  /** Leaving the replay releases the lock and shows what was acknowledged. */
  function Released(s: System, t: Task, client: Client, replayed: nat): System {
    var active := client.(routing := if replayed > 0 && !client.finished then Active else client.routing);
    s.(gates := s.gates - {t.id}, clients := s.clients[t.id := active])
  }

  lemma ReplayEnds(s: System, i: nat, r: Registry, replayed: nat)
    requires Attached(s, i, r) && s.tasks[i].origin != Manual
    ensures var t := s.tasks[i];
            Leads(At(s, i, r, Replaying([], replayed)), [Resume(i)],
                  At(Released(s, t, s.clients[t.id], replayed), i, r, Retrying))
  {
    var t := s.tasks[i];
    var s0 := At(s, i, r, Replaying([], replayed));
    assert Next(s0, Resume(i)) == At(Released(s, t, s.clients[t.id], replayed), i, r, Retrying);
    OneStep(s0, Resume(i));
  }

  lemma RetryAdds(s: System, i: nat, r: Registry, taken: bool)
    requires Attached(s, i, r) && s.tasks[i].origin != Manual && s.tasks[i].process.Some?
    ensures var t, client := s.tasks[i], s.clients[s.tasks[i].id];
            var added := Add(r, t.id, t.process.value.pid, t.process.value.createdAt, taken).0;
            Leads(At(s, i, r, Retrying), Exchange(i, taken),
                  At(s, i, added, Finished(taken)).(
                    clients := s.clients[t.id := client.(routing := Outcome(t.origin, client, taken))]))
  {
    var t, client := s.tasks[i], s.clients[s.tasks[i].id];
    var (added, reply) := Add(r, t.id, t.process.value.pid, t.process.value.createdAt, taken);
    var s1 := At(s, i, r, Retrying);
    var s2 := At(s, i, added, Retried(Answered(reply)));
    assert Next(s1, Send(i, Delivered, taken)) == s2;
    assert Next(s2, Resume(i)) == At(s, i, added, Finished(taken)).(
      clients := s.clients[t.id := client.(routing := Outcome(t.origin, client, taken))]);
    TwoSteps(s1, Send(i, Delivered, taken), Resume(i));
  }

  /** The client after a recovery of its session, and after the add that ran into it. */
  function ClientAfter(t: Task, client: Client, replayed: nat, taken: bool): Client {
    var active := client.(routing := if replayed > 0 && !client.finished then Active else client.routing);
    active.(routing := Outcome(t.origin, active, taken))
  }

  /** The system after a whole recovery of task `i`'s session whose replay leaves registry `r`;
      `taken` says whether the router takes the task's own process in the end. */
  function Recovery(s: System, i: nat, r: Registry, replayed: nat, taken: bool): System
    requires i < |s.tasks| && s.tasks[i].id in s.clients && s.tasks[i].process.Some?
  {
    var t := s.tasks[i];
    s.(registry := Add(r, t.id, t.process.value.pid, t.process.value.createdAt, taken).0,
       tasks := s.tasks[i := t.(phase := Finished(taken))],
       gates := s.gates - {t.id},
       clients := s.clients[t.id := ClientAfter(t, s.clients[t.id], replayed, taken)])
  }

  lemma RecoveryCloses(s: System, i: nat, r: Registry, replayed: nat, taken: bool)
    requires Attached(s, i, r) && s.tasks[i].origin != Manual && s.tasks[i].process.Some?
    ensures Leads(At(s, i, r, Replaying([], replayed)), [Resume(i)] + Exchange(i, taken),
                  Recovery(s, i, r, replayed, taken))
  {
    var t := s.tasks[i];
    var released := Released(s, t, s.clients[t.id], replayed);
    ReplayEnds(s, i, r, replayed);
    RetryAdds(released, i, r, taken);
    Chain(At(s, i, r, Replaying([], replayed)), [Resume(i)], At(released, i, r, Retrying),
          Exchange(i, taken), Recovery(s, i, r, replayed, taken));
  }

  lemma {:induction false} ReplayKeeps(r: Registry, id: string, live: seq<Process>, refused: set<Pid>)
    requires id in r.sessions && !IsBlank(id)
    ensures id in SessionRegistry.Run(r, Replays(id, live, refused)).sessions
  {
    ReplayExact(r, id, live, refused);
  }

  /** From the list of the live processes to the end. */
  lemma {:induction false} RecoveryReplays(s: System, i: nat, r: Registry, live: seq<Process>, refused: set<Pid>,
                                           taken: bool)
    requires Attached(s, i, r) && s.tasks[i].origin != Manual && s.tasks[i].process.Some?
    ensures var steps := ReplaySteps(i, live, refused) + ([Resume(i)] + Exchange(i, taken));
            var replayed := SessionRegistry.Run(r, Replays(s.tasks[i].id, live, refused));
            Leads(At(s, i, r, Replaying(live, 0)), steps, Recovery(s, i, replayed, CountTaken(live, refused), taken))
  {
    var replayed := SessionRegistry.Run(r, Replays(s.tasks[i].id, live, refused));
    var count := CountTaken(live, refused);
    ReplayKeeps(r, s.tasks[i].id, live, refused);
    ReplayLoop(s, i, r, live, refused, 0);
    RecoveryCloses(s, i, replayed, count, taken);
    Chain(At(s, i, r, Replaying(live, 0)), ReplaySteps(i, live, refused), ReplayedTo(s, i, r, live, refused, 0),
          [Resume(i)] + Exchange(i, taken), Recovery(s, i, replayed, count, taken));
  }

  /** All the steps of a recovery: the refused add, the lock and the creation, the replay, the
      release, and the add again. */
  function RecoverySteps(i: nat, live: seq<Process>, refused: set<Pid>, taken: bool): seq<Step> {
    Exchange(i, true) + (([Acquire(i)] + Exchange(i, true)) +
      (ReplaySteps(i, live, refused) + ([Resume(i)] + Exchange(i, taken))))
  }

  /** The interleaved steps refine the sequential program: a task that runs into a lost session, and
      is not interfered with, goes through the recovery as the sequential code does, whichever PIDs the
      router refuses, and then adds its own process; lock, other tasks and other clients are in the
      end as they were before. */
  lemma {:induction false} SoloRecovery(s: System, i: nat, refused: set<Pid>, taken: bool)
    requires FacesLostSession(s, i)
    ensures var id, client := s.tasks[i].id, s.clients[s.tasks[i].id];
            var recovered := Recovered(s.registry, id, client.endpoint, client.live, refused);
            var end := Recovery(s, i, recovered, CountTaken(client.live, refused), taken);
            Leads(s, RecoverySteps(i, client.live, refused, taken), end) && end.gates == s.gates
  {
    var id, client := s.tasks[i].id, s.clients[s.tasks[i].id];
    var locked := s.(gates := s.gates + {id});
    var created := Create(s.registry, id, client.endpoint).0;
    var recovered := Recovered(s.registry, id, client.endpoint, client.live, refused);
    var end := Recovery(s, i, recovered, CountTaken(client.live, refused), taken);
    var s2 := At(s, i, s.registry, Waiting);
    var s5 := At(locked, i, created, Replaying(client.live, 0));
    var closing := ReplaySteps(i, client.live, refused) + ([Resume(i)] + Exchange(i, taken));
    AddRefused(s, i);
    SessionCreatedAgain(s, i);
    RecoveryReplays(locked, i, created, client.live, refused, taken);
    assert locked.gates - {id} == s.gates - {id} == s.gates;
    Chain(s2, [Acquire(i)] + Exchange(i, true), s5, closing, end);
    Chain(s, Exchange(i, true), s2, ([Acquire(i)] + Exchange(i, true)) + closing, end);
  }
}
