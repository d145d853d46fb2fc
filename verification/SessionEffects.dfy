/** The session's life once more, by effects instead of by handlers: what each event does to each part
    of the session, stated without the handlers, and what follows for whole runs. */
module SessionEffects {
  import opened Wrappers
  import opened SessionLifecycle

  /** The session has ended, one way or the other. */
  predicate Ended(s: State) {
    s.status == Exited || s.status == Failed
  }

  predicate PidsDistinct(ps: seq<Process>) {
    forall i, j | 0 <= i < j < |ps| :: ps[i].pid != ps[j].pid
  }

  predicate Knows(s: State, pid: int) {
    exists p :: p in s.processes && p.pid == pid
  }

  predicate SomeLive(s: State) {
    exists p :: p in s.processes && p.live
  }

  // ----- the processes -----

  /** A process merges as a descendant or as a candidate of a Store app, and as nothing else. */
  lemma MergesAs(s: State, pid: int, role: Role)
    ensures Enabled(s, Merge(pid, role)) <==> role == Descendant || role == StoreAppCandidate
  {
  }

  /** The events that record the exit of a live process. */
  predicate RecordsExit(s: State, e: Event, p: Process) {
    match e
    case RootExit => !Ended(s) && p.pid == s.rootPid
    case MergedExit(pid) => !Ended(s) && p.pid == pid
    case CorrelatedExit(pid) => !Ended(s) && p.pid == pid
    case MonitorTick(dead) => p.pid in dead && (p.role == Descendant || p.role == Correlated)
    case Stop(gone) => !Ended(s) && p.pid in gone
    case _ => false
  }

  /** The events that bring a process in, and its role. */
  function BringsIn(s: State, e: Event): Option<Process>
    requires Enabled(s, e)
  {
    match e
    case Merge(pid, role) =>
      var joinsAs := if s.status == WaitingForRestart then RestartedChild else role;
      if Ended(s) then None else Some(Process(pid, joinsAs, true))
    case MergeExternal(pid) => if Ended(s) then None else Some(Process(pid, Root, true))
    case Discover(pid) => Some(Process(pid, Descendant, true))
    case HandoffResume(i, decision) =>
      if s.handoffs[i] == AwaitingSnapshot && decision.Attach? then Some(Process(decision.pid, Correlated, true))
      else None
    case Answer(choice) => if choice.Some? then Some(Process(choice.value, Correlated, true)) else None
    case _ => None
  }

  lemma {:induction false} MarkExitedFirst(ps: seq<Process>, pid: int, i: nat)
    requires PidsDistinct(ps) && i < |ps|
    ensures |MarkExited(ps, pid)| == |ps|
    ensures MarkExited(ps, pid)[i] == if ps[i].pid == pid then ps[i].(live := false) else ps[i]
    decreases |ps|
  {
    if ps[0].pid != pid && i > 0 {
      MarkExitedFirst(ps[1..], pid, i - 1);
    } else if ps[0].pid != pid && |ps| > 1 {
      MarkExitedFirst(ps[1..], pid, 0);
    }
  }

  lemma MarkExitedLength(ps: seq<Process>, pid: int)
    requires PidsDistinct(ps)
    ensures |MarkExited(ps, pid)| == |ps|
  {
    if ps != [] {
      MarkExitedFirst(ps, pid, 0);
    }
  }

  /** What becomes of one tracked process: PID and role stay, and it is live afterwards exactly if it
      was live and its exit is not recorded. */
  lemma ProcessAfter(s: State, e: Event, i: nat)
    requires PidsDistinct(s.processes) && Enabled(s, e) && i < |s.processes|
    ensures i < |Next(s, e).processes|
    ensures var p := s.processes[i];
            Next(s, e).processes[i] == Process(p.pid, p.role, p.live && !RecordsExit(s, e, p))
  {
    if e.RootExit? || e.MergedExit? || e.CorrelatedExit? {
      ProcessAfterExit(s, e, i);
    }
  }

  lemma ProcessAfterExit(s: State, e: Event, i: nat)
    requires PidsDistinct(s.processes) && i < |s.processes| && (e.RootExit? || e.MergedExit? || e.CorrelatedExit?)
    ensures i < |Next(s, e).processes|
    ensures var p := s.processes[i];
            Next(s, e).processes[i] == Process(p.pid, p.role, p.live && !RecordsExit(s, e, p))
  {
    MarkExitedFirst(s.processes, if e.RootExit? then s.rootPid else e.pid, i);
  }

  /** And which process is new: the one that the event brings in, unless its PID is known. */
  lemma NewProcess(s: State, e: Event)
    requires PidsDistinct(s.processes) && Enabled(s, e)
    ensures var n, after := |s.processes|, Next(s, e).processes;
            if BringsIn(s, e).Some? && !Knows(s, BringsIn(s, e).value.pid)
            then |after| == n + 1 && after[n] == BringsIn(s, e).value
            else |after| == n
  {
    match e
    case RootExit => MarkExitedLength(s.processes, s.rootPid);
    case MergedExit(pid) => MarkExitedLength(s.processes, pid);
    case CorrelatedExit(pid) => MarkExitedLength(s.processes, pid);
    case Merge(pid, _) => KnownTracked(s, pid);
    case MergeExternal(pid) => KnownTracked(s, pid);
    case Discover(pid) => KnownTracked(s, pid);
    case HandoffResume(_, decision) =>
      if decision.Attach? {
        KnownTracked(s, decision.pid);
      }
    case Answer(choice) =>
      if choice.Some? {
        KnownTracked(s, choice.value);
      }
    case _ =>
  }

  lemma KnownTracked(s: State, pid: int)
    ensures Tracked(s.processes, pid) <==> Knows(s, pid)
  {
    if Tracked(s.processes, pid) {
      var i :| 0 <= i < |s.processes| && s.processes[i].pid == pid;
      assert s.processes[i] in s.processes;
    }
  }

  lemma DistinctStep(s: State, e: Event)
    requires PidsDistinct(s.processes) && Enabled(s, e)
    ensures PidsDistinct(Next(s, e).processes)
  {
    NewProcess(s, e);
    var after := Next(s, e).processes;
    forall i, j | 0 <= i < j < |after|
      ensures after[i].pid != after[j].pid
    {
      ProcessAfter(s, e, i);
      if j < |s.processes| {
        ProcessAfter(s, e, j);
      } else {
        assert s.processes[i] in s.processes;
      }
    }
  }

  /** Over every run each PID is tracked once, no process is forgotten or changes its role, and none
      that has exited comes back. */
  lemma {:induction false} HistoryKept(s: State, es: seq<Event>, i: nat)
    requires PidsDistinct(s.processes) && CanRun(s, es) && i < |s.processes|
    ensures PidsDistinct(RunTo(s, es).processes) && i < |RunTo(s, es).processes|
    ensures var p, q := s.processes[i], RunTo(s, es).processes[i];
            q.pid == p.pid && q.role == p.role && (q.live ==> p.live)
    decreases |es|
  {
    if es != [] {
      DistinctStep(s, es[0]);
      ProcessAfter(s, es[0], i);
      HistoryKept(Next(s, es[0]), es[1..], i);
    }
  }

  /** So the root stays where it was when the session opened. */
  lemma RootStaysFirst(kind: Kind, settings: Settings, rootPid: int, now: nat, es: seq<Event>)
    requires CanRun(Opened(kind, settings, rootPid, now), es)
    ensures var s, u := Opened(kind, settings, rootPid, now), RunTo(Opened(kind, settings, rootPid, now), es);
            && s.status == Running && s.processes == [Process(rootPid, Root, true)]
            && s.handoffs == [] && s.prompts == 0 && s.timers == multiset{} && s.now == now
            && PidsDistinct(u.processes) && |u.processes| > 0
            && u.processes[0].pid == rootPid && u.processes[0].role == Root
  {
    HistoryKept(Opened(kind, settings, rootPid, now), es, 0);
  }

  // ----- the status -----

  /** The session has lost what kept it going: its last live process is gone, or its handoff has come to
      nothing. */
  predicate LosesLast(s: State, e: Event)
    requires Enabled(s, e)
  {
    var u := Next(s, e);
    match e
    case RootExit => !Ended(s) && !SomeLive(u) && s.kind != Launched
    case MergedExit(_) => !Ended(s) && !SomeLive(u)
    case CorrelatedExit(_) => !Ended(s) && !SomeLive(u)
    case MonitorTick(dead) =>
      && (s.status == RunningViaChild || s.status == RunningViaCorrelated) && !SomeLive(u)
      && exists p :: p in s.processes && p.live && RecordsExit(s, e, p)
    case HandoffResume(i, decision) => s.handoffs[i] == AwaitingSnapshot && decision == NoCandidate
    case HandoffFault(_) => true
    case _ => false
  }

  lemma LiveLeft(s: State, e: Event)
    requires Enabled(s, e)
    ensures SomeLive(Next(s, e)) <==> HasLive(Next(s, e).processes)
  {
    var ps := Next(s, e).processes;
    if HasLive(ps) {
      var i :| 0 <= i < |ps| && ps[i].live;
      assert ps[i] in ps;
    }
  }

  lemma TickChanges(s: State, dead: set<int>)
    requires PidsDistinct(s.processes)
    ensures Next(s, MonitorTick(dead)).processes != s.processes
       <==> exists p :: p in s.processes && p.live && RecordsExit(s, MonitorTick(dead), p)
  {
    var e := MonitorTick(dead);
    var after := Next(s, e).processes;
    NewProcess(s, e);
    if p :| p in s.processes && p.live && RecordsExit(s, e, p) {
      var i :| 0 <= i < |s.processes| && s.processes[i] == p;
      ProcessAfter(s, e, i);
    }
    if after != s.processes {
      var i :| 0 <= i < |after| && after[i] != s.processes[i];
      ProcessAfter(s, e, i);
      assert s.processes[i] in s.processes;
    }
  }

  /** What makes a session wait or ends it: the same losses, by the supervisor; and a stop, a grace
      timer on a waiting session, or the user's dismissal. */
  lemma WaitsOrExits(s: State, e: Event)
    requires PidsDistinct(s.processes) && Enabled(s, e)
    ensures Next(s, e).status == WaitingForRestart && s.status != WaitingForRestart
       <==> s.status != WaitingForRestart && LosesLast(s, e) && s.settings.supervised
    ensures Next(s, e).status == Exited && s.status != Exited
       <==> s.status != Exited
            && (|| (LosesLast(s, e) && !s.settings.supervised)
                || (e.Stop? && !Ended(s))
                || (e.TimerFires? && s.status == WaitingForRestart)
                || e == Answer(None))
  {
    LiveLeft(s, e);
    if e.MonitorTick? {
      TickChanges(s, e.dead);
    }
  }

  /** What makes a session run: a process that joins it while it waits; another live process when one
      exits; and an attached one. */
  lemma RunsAgain(s: State, e: Event)
    requires Enabled(s, e)
    ensures Next(s, e).status == Running && s.status != Running
       <==> s.status == WaitingForRestart && ((e.Merge? && !Knows(s, e.pid)) || e.MergeExternal?)
    ensures Next(s, e).status == RunningViaChild && s.status != RunningViaChild
       <==> s.status != RunningViaChild && !Ended(s) && (e.RootExit? || e.MergedExit?) && SomeLive(Next(s, e))
    ensures Next(s, e).status == RunningViaCorrelated && s.status != RunningViaCorrelated
       <==> s.status != RunningViaCorrelated
            && (|| (e.Answer? && e.choice.Some?)
                || (e.HandoffResume? && s.handoffs[e.task] == AwaitingSnapshot && e.decision.Attach?))
  {
    LiveLeft(s, e);
    if e.Merge? {
      KnownTracked(s, e.pid);
    }
  }

  /** And the statuses that no event leads to, or only the root's exit. */
  lemma ChecksOrNever(s: State, e: Event)
    requires Enabled(s, e)
    ensures Next(s, e).status == CheckingCorrelated && s.status != CheckingCorrelated
       <==> s.status != CheckingCorrelated && !Ended(s) && e == RootExit && s.kind == Launched && !SomeLive(Next(s, e))
    ensures Next(s, e).status == Starting ==> s.status == Starting
    ensures Next(s, e).status == Failed ==> s.status == Failed
  {
    LiveLeft(s, e);
  }

  // ----- pending work -----

  /** Timers: one that fires is used up, a loss sets one for the end of the grace period if its delay
      can be waited for, and nothing else touches them. */
  lemma TimersAfter(s: State, e: Event)
    requires PidsDistinct(s.processes) && Enabled(s, e)
    ensures e.TimerFires? ==> Next(s, e).timers == s.timers - multiset{e.due}
    ensures LosesLast(s, e) && s.settings.supervised && 0 <= s.settings.graceSeconds <= 4294967 ==>
      Next(s, e).timers == s.timers + multiset{s.now + s.settings.graceSeconds}
    ensures !e.TimerFires? && !(LosesLast(s, e) && s.settings.supervised && 0 <= s.settings.graceSeconds <= 4294967)
      ==> Next(s, e).timers == s.timers
  {
    if e.MonitorTick? {
      TimersAfterTick(s, e.dead);
    } else {
      LiveLeft(s, e);
    }
  }

  lemma TimersAfterTick(s: State, dead: set<int>)
    requires PidsDistinct(s.processes)
    ensures var e := MonitorTick(dead);
            var sets := LosesLast(s, e) && s.settings.supervised && 0 <= s.settings.graceSeconds <= 4294967;
            Next(s, e).timers == if sets then s.timers + multiset{s.now + s.settings.graceSeconds} else s.timers
  {
    LiveLeft(s, MonitorTick(dead));
    TickChanges(s, dead);
  }

  /** Dialogs: one more when a handoff asks, one less when the user answers. */
  lemma PromptsAfter(s: State, e: Event)
    requires Enabled(s, e)
    ensures var asks := e.HandoffResume? && s.handoffs[e.task] == AwaitingSnapshot && e.decision == Ask;
            Next(s, e).prompts == s.prompts + (if asks then 1 else 0) - (if e.Answer? then 1 else 0)
  {
  }

  /** Handoffs: one more when a launched session checks; a resumed one goes from stage to stage and is
      over after its last, or before its delays when the session has ended; a failed one is over. */
  lemma HandoffsAfter(s: State, e: Event)
    requires Enabled(s, e)
    ensures e == RootExit && !Ended(s) && s.kind == Launched && !SomeLive(Next(s, e)) ==>
      Next(s, e).handoffs == s.handoffs + [Entered]
    ensures e.HandoffResume? ==>
      var i := e.task;
      if s.handoffs[i] == AwaitingSnapshot || Ended(s) then Next(s, e).handoffs == s.handoffs[..i] + s.handoffs[i + 1..]
      else Next(s, e).handoffs == s.handoffs[i := if s.handoffs[i] == Entered then Delaying else AwaitingSnapshot]
    ensures e.HandoffFault? ==> Next(s, e).handoffs == s.handoffs[..e.task] + s.handoffs[e.task + 1..]
    ensures !e.HandoffResume? && !e.HandoffFault?
            && !(e == RootExit && !Ended(s) && s.kind == Launched && !SomeLive(Next(s, e))) ==>
      Next(s, e).handoffs == s.handoffs
  {
    LiveLeft(s, e);
  }

  /** A handoff may fail in its last await, and before that only while the session goes on. */
  lemma FaultsWhen(s: State, i: nat)
    ensures Enabled(s, HandoffFault(i)) <==> i < |s.handoffs| && (s.handoffs[i] == AwaitingSnapshot || !Ended(s))
  {
  }

  /** Time passes only by itself, and who the session is never changes. */
  lemma RestAfter(s: State, e: Event)
    requires Enabled(s, e)
    ensures Next(s, e).now == s.now + (if e.Advance? then e.seconds else 0)
    ensures Next(s, e).kind == s.kind && Next(s, e).settings == s.settings && Next(s, e).rootPid == s.rootPid
  {
  }
}
