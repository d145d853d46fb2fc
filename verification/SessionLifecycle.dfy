/** The life of one launched session: the handlers that root exits, merged processes, the monitor,
    grace timers, the user and the correlated-handoff task run on it. Each handler, and each segment
    of the handoff task between two awaits, is one step. */
module SessionLifecycle {
  import opened Wrappers

  datatype Status =
    | Starting | Running | RunningViaChild | RunningViaCorrelated
    | CheckingCorrelated | WaitingForRestart | Exited | Failed

  datatype Role = Root | Descendant | Correlated | RestartedChild | StoreAppCandidate

  /** A tracked process; it is live while its exit has not been recorded. */
  datatype Process = Process(pid: int, role: Role, live: bool)

  /** How the session came about, which decides what its root's exit means. */
  datatype Kind = Launched | Targeted | External

  /** Where a pending correlated-handoff task stands: about to start, or in one of its awaits. The
      baseline it awaits first is there from the beginning, so that it is not held up by it. */
  datatype Stage = Entered | Delaying | AwaitingSnapshot

  /** What a handoff task finds in the end. */
  datatype Decision = NoCandidate | Attach(pid: int) | Ask

  /** The supervisor's settings. */
  datatype Settings = Settings(supervised: bool, graceSeconds: int)

  /** The session, with the work pending on it: handoff tasks, dialogs waiting for the user, and
      the due times of grace timers, which are never cancelled. */
  datatype State = State(
    kind: Kind, settings: Settings,
    status: Status, processes: seq<Process>, rootPid: int,
    handoffs: seq<Stage>, prompts: nat, timers: multiset<nat>, now: nat)

  datatype Event =
    | RootExit
    | MergedExit(pid: int)
    | CorrelatedExit(pid: int)
    | MonitorTick(dead: set<int>)
    | Merge(pid: int, role: Role)
    | MergeExternal(pid: int)
    | Discover(pid: int)
    | HandoffResume(task: nat, decision: Decision)
    | HandoffFault(task: nat)
    | Answer(choice: Option<int>)
    | TimerFires(due: nat)
    | Stop(gone: set<int>)
    | Advance(seconds: nat)

  // ----- the handlers, as functions of the state -----

  predicate Over(status: Status) {
    status.Exited? || status.Failed?
  }

  predicate Tracked(ps: seq<Process>, pid: int) {
    exists i :: 0 <= i < |ps| && ps[i].pid == pid
  }

  predicate HasLive(ps: seq<Process>) {
    exists i :: 0 <= i < |ps| && ps[i].live
  }

  /** The first process with this PID has exited. */
  function MarkExited(ps: seq<Process>, pid: int): seq<Process> {
    if ps == [] then []
    else if ps[0].pid == pid then [ps[0].(live := false)] + ps[1..]
    else [ps[0]] + MarkExited(ps[1..], pid)
  }

  /** What the monitor polls: live descendants and correlated processes. */
  predicate Polled(p: Process) {
    p.live && (p.role.Descendant? || p.role.Correlated?)
  }

  function MarkDead(ps: seq<Process>, dead: set<int>): seq<Process> {
    seq(|ps|, i requires 0 <= i < |ps| => if Polled(ps[i]) && ps[i].pid in dead then ps[i].(live := false) else ps[i])
  }

  function MarkGone(ps: seq<Process>, gone: set<int>): seq<Process> {
    seq(|ps|, i requires 0 <= i < |ps| => if ps[i].live && ps[i].pid in gone then ps[i].(live := false) else ps[i])
  }

  function Track(ps: seq<Process>, pid: int, role: Role): seq<Process> {
    if Tracked(ps, pid) then ps else ps + [Process(pid, role, true)]
  }

  function Finalize(s: State): State {
    s.(status := Exited)
  }

  /** The longest delay, in milliseconds, that can be waited for. */
  const MAX_DELAY_MS := 4294967294

  /** A delay that is neither negative nor too long; others are refused. */
  predicate DelayAccepted(seconds: int) {
    0 <= seconds && 1000 * seconds <= MAX_DELAY_MS
  }

  function WithGraceTimer(timers: multiset<nat>, now: nat, graceSeconds: int): multiset<nat> {
    if DelayAccepted(graceSeconds) then timers + multiset{now + graceSeconds} else timers
  }

  /** A timer is set for the end of the grace window; when the delay is refused, the error is only
      logged, and the session waits without a timer. */
  function BeginGraceOrFinalize(s: State): State {
    if !s.settings.supervised then Finalize(s)
    else s.(status := WaitingForRestart, timers := WithGraceTimer(s.timers, s.now, s.settings.graceSeconds))
  }

  function AttachCorrelated(s: State, pid: int): State {
    s.(processes := Track(s.processes, pid, Correlated), status := RunningViaCorrelated)
  }

  function Without(stages: seq<Stage>, i: nat): seq<Stage>
    requires i < |stages|
  {
    stages[..i] + stages[i + 1..]
  }

  /** A handoff task looks at the status when it starts and after its delay, but not after the
      last await. */
  function HandoffResumed(s: State, i: nat, decision: Decision): State
    requires i < |s.handoffs|
  {
    var ended := s.(handoffs := Without(s.handoffs, i));
    match s.handoffs[i]
    case Entered => if Over(s.status) then ended else s.(handoffs := s.handoffs[i := Delaying])
    case Delaying => if Over(s.status) then ended else s.(handoffs := s.handoffs[i := AwaitingSnapshot])
    case AwaitingSnapshot =>
      (match decision
       case NoCandidate => BeginGraceOrFinalize(ended)
       case Attach(pid) => AttachCorrelated(ended, pid)
       case Ask => ended.(prompts := ended.prompts + 1))
  }

  function RootExited(s: State): State {
    if Over(s.status) then s
    else
      var marked := s.(processes := MarkExited(s.processes, s.rootPid));
      if HasLive(marked.processes) then marked.(status := RunningViaChild)
      else if s.kind.Launched? then marked.(status := CheckingCorrelated, handoffs := s.handoffs + [Entered])
      else BeginGraceOrFinalize(marked)
  }

  function MergedExited(s: State, pid: int): State {
    if Over(s.status) then s
    else
      var marked := s.(processes := MarkExited(s.processes, pid));
      if HasLive(marked.processes) then marked.(status := RunningViaChild) else BeginGraceOrFinalize(marked)
  }

  function CorrelatedExited(s: State, pid: int): State {
    if Over(s.status) then s
    else
      var marked := s.(processes := MarkExited(s.processes, pid));
      if HasLive(marked.processes) then marked else BeginGraceOrFinalize(marked)
  }

  function Monitored(s: State, dead: set<int>): State {
    var marked := s.(processes := MarkDead(s.processes, dead));
    if marked.processes != s.processes && !HasLive(marked.processes)
       && (s.status.RunningViaChild? || s.status.RunningViaCorrelated?)
    then BeginGraceOrFinalize(marked) else marked
  }

  /** The roles a merged process can have, by what it was matched by. */
  predicate MergeRole(role: Role) {
    role.Descendant? || role.StoreAppCandidate?
  }

  function Merged(s: State, pid: int, role: Role): State {
    if Over(s.status) || Tracked(s.processes, pid) then s
    else if s.status.WaitingForRestart? then
      s.(processes := Track(s.processes, pid, RestartedChild), status := Running)
    else s.(processes := Track(s.processes, pid, role))
  }

  function MergedExternally(s: State, pid: int): State {
    if Over(s.status) then s
    else s.(processes := Track(s.processes, pid, Root),
            status := if s.status.WaitingForRestart? then Running else s.status)
  }

  function Stopped(s: State, gone: set<int>): State {
    if Over(s.status) then s else s.(status := Exited, processes := MarkGone(s.processes, gone))
  }

  /** A handoff task whose session is over returns, when it starts and after its delay, before
      anything can fail; only after its last await it does not look. */
  predicate MayFail(s: State, i: nat)
    requires i < |s.handoffs|
  {
    s.handoffs[i].AwaitingSnapshot? || !Over(s.status)
  }

  /** Timers fire on time: time does not pass beyond a pending timer. */
  predicate Enabled(s: State, e: Event) {
    match e
    case Merge(_, role) => MergeRole(role)
    case HandoffResume(i, _) => i < |s.handoffs|
    case HandoffFault(i) => i < |s.handoffs| && MayFail(s, i)
    case Answer(_) => s.prompts > 0
    case TimerFires(due) => due in s.timers && due <= s.now
    case Advance(seconds) => forall due | due in s.timers :: s.now + seconds <= due
    case _ => true
  }

  function Next(s: State, e: Event): State
    requires Enabled(s, e)
  {
    match e
    case RootExit => RootExited(s)
    case MergedExit(pid) => MergedExited(s, pid)
    case CorrelatedExit(pid) => CorrelatedExited(s, pid)
    case MonitorTick(dead) => Monitored(s, dead)
    case Merge(pid, role) => Merged(s, pid, role)
    case MergeExternal(pid) => MergedExternally(s, pid)
    case Discover(pid) => s.(processes := Track(s.processes, pid, Descendant))
    case HandoffResume(i, decision) => HandoffResumed(s, i, decision)
    case HandoffFault(i) => BeginGraceOrFinalize(s.(handoffs := Without(s.handoffs, i)))
    case Answer(choice) =>
      var answered := s.(prompts := s.prompts - 1);
      if choice.Some? then AttachCorrelated(answered, choice.value) else Finalize(answered)
    case TimerFires(due) =>
      var fired := s.(timers := s.timers - multiset{due});
      if s.status.WaitingForRestart? then Finalize(fired) else fired
    case Stop(gone) => Stopped(s, gone)
    case Advance(seconds) => s.(now := s.now + seconds)
  }

  predicate CanRun(s: State, es: seq<Event>)
    decreases |es|
  {
    es == [] || (Enabled(s, es[0]) && CanRun(Next(s, es[0]), es[1..]))
  }

  function RunTo(s: State, es: seq<Event>): State
    requires CanRun(s, es)
    decreases |es|
  {
    if es == [] then s else RunTo(Next(s, es[0]), es[1..])
  }

  /** A session whose root has just started. */
  function Opened(kind: Kind, settings: Settings, rootPid: int, now: nat): State {
    State(kind, settings, Running, [Process(rootPid, Root, true)], rootPid, [], 0, multiset{}, now)
  }

  // ----- the handlers, on the session object -----

  class LaunchSession {
    const kind: Kind
    const settings: Settings
    const rootPid: int
    var status: Status
    var processes: seq<Process>
    var handoffs: seq<Stage>
    var prompts: nat
    var timers: multiset<nat>
    var now: nat

    ghost function View(): State
      reads this
    {
      State(kind, settings, status, processes, rootPid, handoffs, prompts, timers, now)
    }

    constructor (kind: Kind, settings: Settings, rootPid: int, now: nat)
      ensures View() == Opened(kind, settings, rootPid, now)
    {
      this.kind, this.settings, this.rootPid, this.now := kind, settings, rootPid, now;
      status, processes := Running, [Process(rootPid, Root, true)];
      handoffs, prompts, timers := [], 0, multiset{};
    }

    method IsTracked(pid: int) returns (tracked: bool)
      ensures tracked <==> Tracked(processes, pid)
    {
      var i := 0;
      while i < |processes|
        invariant 0 <= i <= |processes|
        invariant forall j | 0 <= j < i :: processes[j].pid != pid
      {
        if processes[i].pid == pid {
          return true;
        }
        i := i + 1;
      }
      return false;
    }

    method HasLiveProcesses() returns (live: bool)
      ensures live <==> HasLive(processes)
    {
      var i := 0;
      while i < |processes|
        invariant 0 <= i <= |processes|
        invariant forall j | 0 <= j < i :: !processes[j].live
      {
        if processes[i].live {
          return true;
        }
        i := i + 1;
      }
      return false;
    }

    method MarkProcessExited(pid: int)
      modifies this`processes
      ensures processes == MarkExited(old(processes), pid)
    {
      var i := 0;
      while i < |processes|
        invariant 0 <= i <= |processes|
        invariant processes == old(processes)
        invariant MarkExited(processes, pid) == processes[..i] + MarkExited(processes[i..], pid)
      {
        if processes[i].pid == pid {
          assert processes[i..][1..] == processes[i + 1..];
          processes := processes[i := processes[i].(live := false)];
          return;
        }
        assert processes[i..][1..] == processes[i + 1..];
        i := i + 1;
      }
    }

    method TrackProcess(pid: int, role: Role)
      modifies this`processes
      ensures processes == Track(old(processes), pid, role)
    {
      var tracked := IsTracked(pid);
      if !tracked {
        processes := processes + [Process(pid, role, true)];
      }
    }

    method FinalizeAsExited()
      modifies this`status
      ensures View() == Finalize(old(View()))
    {
      status := Exited;
    }

    method BeginGraceWindowOrFinalize()
      modifies this`status, this`timers
      ensures View() == BeginGraceOrFinalize(old(View()))
    {
      if !settings.supervised {
        FinalizeAsExited();
        return;
      }
      status := WaitingForRestart;
      if DelayAccepted(settings.graceSeconds) {
        timers := timers + multiset{now + settings.graceSeconds};
      }
    }

    method OnRootExited()
      modifies this
      ensures View() == Next(old(View()), RootExit)
    {
      if Over(status) {
        return;
      }
      MarkProcessExited(rootPid);
      var live := HasLiveProcesses();
      if live {
        status := RunningViaChild;
      } else if kind.Launched? {
        status := CheckingCorrelated;
        handoffs := handoffs + [Entered];
      } else {
        BeginGraceWindowOrFinalize();
      }
    }

    method OnMergedProcessExited(pid: int)
      modifies this
      ensures View() == Next(old(View()), MergedExit(pid))
    {
      if Over(status) {
        return;
      }
      MarkProcessExited(pid);
      var live := HasLiveProcesses();
      if live {
        status := RunningViaChild;
      } else {
        BeginGraceWindowOrFinalize();
      }
    }

    method OnCorrelatedExited(pid: int)
      modifies this
      ensures View() == Next(old(View()), CorrelatedExit(pid))
    {
      if Over(status) {
        return;
      }
      MarkProcessExited(pid);
      var live := HasLiveProcesses();
      if !live {
        BeginGraceWindowOrFinalize();
      }
    }

    /** The monitor's pass over the processes. */
    method PollProcesses(dead: set<int>) returns (anyChanged: bool)
      modifies this`processes
      ensures processes == MarkDead(old(processes), dead)
      ensures anyChanged <==> processes != old(processes)
    {
      anyChanged := false;
      var i := 0;
      while i < |processes|
        invariant 0 <= i <= |processes| == |old(processes)|
        invariant forall j | 0 <= j < i :: processes[j] == MarkDead(old(processes), dead)[j]
        invariant forall j | i <= j < |processes| :: processes[j] == old(processes)[j]
        invariant anyChanged <==> exists j :: 0 <= j < i && processes[j] != old(processes)[j]
      {
        if Polled(processes[i]) && processes[i].pid in dead {
          processes := processes[i := processes[i].(live := false)];
          anyChanged := true;
        }
        i := i + 1;
      }
    }

    method MonitorDescendants(dead: set<int>)
      modifies this
      ensures View() == Next(old(View()), MonitorTick(dead))
    {
      var anyChanged := PollProcesses(dead);
      if anyChanged {
        var live := HasLiveProcesses();
        if !live && (status.RunningViaChild? || status.RunningViaCorrelated?) {
          BeginGraceWindowOrFinalize();
        }
      }
    }

    method TryMerge(pid: int, matchedRole: Role)
      requires MergeRole(matchedRole)
      modifies this
      ensures View() == Next(old(View()), Merge(pid, matchedRole))
    {
      if Over(status) {
        return;
      }
      var tracked := IsTracked(pid);
      if tracked {
        return;
      }
      var isRestart := status.WaitingForRestart?;
      TrackProcess(pid, if isRestart then RestartedChild else matchedRole);
      if isRestart {
        status := Running;
      }
    }

    method AttachExternal(pid: int)
      modifies this
      ensures View() == Next(old(View()), MergeExternal(pid))
    {
      if Over(status) {
        return;
      }
      TrackProcess(pid, Root);
      if status.WaitingForRestart? {
        status := Running;
      }
    }

    method OnDescendant(pid: int)
      modifies this`processes
      ensures View() == Next(old(View()), Discover(pid))
    {
      TrackProcess(pid, Descendant);
    }

    method Attach(pid: int)
      modifies this`processes, this`status
      ensures View() == AttachCorrelated(old(View()), pid)
    {
      TrackProcess(pid, Correlated);
      status := RunningViaCorrelated;
    }

    method ResumeHandoff(i: nat, decision: Decision)
      requires i < |handoffs|
      modifies this
      ensures View() == Next(old(View()), HandoffResume(i, decision))
    {
      match handoffs[i]
      case Entered =>
        handoffs := if Over(status) then Without(handoffs, i) else handoffs[i := Delaying];
      case Delaying =>
        handoffs := if Over(status) then Without(handoffs, i) else handoffs[i := AwaitingSnapshot];
      case AwaitingSnapshot =>
        handoffs := Without(handoffs, i);
        match decision {
          case NoCandidate => BeginGraceWindowOrFinalize();
          case Attach(pid) => Attach(pid);
          case Ask => prompts := prompts + 1;
        }
    }

    method FaultHandoff(i: nat)
      requires i < |handoffs| && MayFail(View(), i)
      modifies this
      ensures View() == Next(old(View()), HandoffFault(i))
    {
      handoffs := Without(handoffs, i);
      BeginGraceWindowOrFinalize();
    }

    method AnswerPrompt(choice: Option<int>)
      requires prompts > 0
      modifies this
      ensures View() == Next(old(View()), Answer(choice))
    {
      prompts := prompts - 1;
      match choice
      case Some(pid) => Attach(pid);
      case None => FinalizeAsExited();
    }

    method OnGraceExpired(due: nat)
      requires due in timers && due <= now
      modifies this
      ensures View() == Next(old(View()), TimerFires(due))
    {
      timers := timers - multiset{due};
      if status.WaitingForRestart? {
        FinalizeAsExited();
      }
    }

    /** The kill loop: the processes in `gone` are found dead or are killed. */
    method KillProcesses(gone: set<int>)
      modifies this`processes
      ensures processes == MarkGone(old(processes), gone)
    {
      var i := 0;
      while i < |processes|
        invariant 0 <= i <= |processes| == |old(processes)|
        invariant forall j | 0 <= j < i :: processes[j] == MarkGone(old(processes), gone)[j]
        invariant forall j | i <= j < |processes| :: processes[j] == old(processes)[j]
      {
        if processes[i].live && processes[i].pid in gone {
          processes := processes[i := processes[i].(live := false)];
        }
        i := i + 1;
      }
    }

    method StopSession(gone: set<int>)
      modifies this
      ensures View() == Next(old(View()), Stop(gone))
    {
      if Over(status) {
        return;
      }
      status := Exited;
      KillProcesses(gone);
    }

    method PassTime(seconds: nat)
      modifies this`now
      ensures View() == old(View()).(now := old(now) + seconds)
    {
      now := now + seconds;
    }

    /** One event, handed to its handler. */
    method Perform(e: Event)
      requires Enabled(View(), e)
      modifies this
      ensures View() == Next(old(View()), e)
    {
      match e
      case RootExit => OnRootExited();
      case MergedExit(pid) => OnMergedProcessExited(pid);
      case CorrelatedExit(pid) => OnCorrelatedExited(pid);
      case MonitorTick(dead) => MonitorDescendants(dead);
      case Merge(pid, role) => TryMerge(pid, role);
      case MergeExternal(pid) => AttachExternal(pid);
      case Discover(pid) => OnDescendant(pid);
      case HandoffResume(i, decision) => ResumeHandoff(i, decision);
      case HandoffFault(i) => FaultHandoff(i);
      case Answer(choice) => AnswerPrompt(choice);
      case TimerFires(due) => OnGraceExpired(due);
      case Stop(gone) => StopSession(gone);
      case Advance(seconds) => PassTime(seconds);
    }

    /** A run of events on the object ends where the run of the steps does, so that whatever is proved
        of runs holds of the object. */
    method PerformAll(es: seq<Event>)
      requires CanRun(View(), es)
      modifies this
      ensures View() == RunTo(old(View()), es)
    {
      var i := 0;
      while i < |es|
        invariant 0 <= i <= |es| && CanRun(View(), es[i..])
        invariant RunTo(View(), es[i..]) == RunTo(old(View()), es)
      {
        assert es[i..][0] == es[i] && es[i..][1..] == es[i + 1..];
        Perform(es[i]);
        i := i + 1;
      }
    }
  }

  // ----- exited is final -----

  /** No handoff task is under way, and no dialog waits for the user. */
  predicate Quiet(s: State) {
    s.handoffs == [] && s.prompts == 0
  }

  /** The steps that take a session out of exited: the last resumption of a pending handoff task
      that attaches or begins a grace window, a failure of such a task then, and the user's attach. */
  predicate Revives(s: State, e: Event)
    requires Enabled(s, e)
  {
    match e
    case HandoffResume(i, decision) =>
      s.handoffs[i].AwaitingSnapshot? && (decision.Attach? || (decision.NoCandidate? && s.settings.supervised))
    case HandoffFault(_) => s.settings.supervised
    case Answer(choice) => choice.Some?
    case _ => false
  }

  /** These are the only ones, and each of them does. */
  lemma OnlyHandoffsRevive(s: State, e: Event)
    requires Enabled(s, e) && s.status.Exited?
    ensures !Next(s, e).status.Exited? <==> Revives(s, e)
    ensures Revives(s, e) ==> !Quiet(s)
    ensures Revives(s, e) ==> Next(s, e).status.WaitingForRestart? || Next(s, e).status.RunningViaCorrelated?
  {
  }

  /** A quiet session gets work pending only by entering checking-correlated. */
  lemma QuietStep(s: State, e: Event)
    requires Quiet(s) && Enabled(s, e)
    ensures Quiet(Next(s, e)) || Next(s, e).status.CheckingCorrelated?
    ensures s.status.Exited? ==> Quiet(Next(s, e)) && Next(s, e).status.Exited?
  {
  }

  /** The run never enters checking-correlated. */
  predicate NeverChecks(s: State, es: seq<Event>)
    requires CanRun(s, es)
    decreases |es|
  {
    es == [] || (!Next(s, es[0]).status.CheckingCorrelated? && NeverChecks(Next(s, es[0]), es[1..]))
  }

  lemma {:induction false} QuietRun(s: State, es: seq<Event>)
    requires Quiet(s) && CanRun(s, es) && NeverChecks(s, es)
    ensures Quiet(RunTo(s, es))
    decreases |es|
  {
    if es != [] {
      QuietStep(s, es[0]);
      QuietRun(Next(s, es[0]), es[1..]);
    }
  }

  lemma {:induction false} ExitedStays(s: State, es: seq<Event>)
    requires Quiet(s) && s.status.Exited? && CanRun(s, es)
    ensures RunTo(s, es).status.Exited?
    decreases |es|
  {
    if es != [] {
      QuietStep(s, es[0]);
      ExitedStays(Next(s, es[0]), es[1..]);
    }
  }

  /** Exited is final: a session that has not entered checking-correlated by the time it exits
      stays exited in every run. */
  lemma ExitedIsFinal(s: State, es: seq<Event>, later: seq<Event>)
    requires Quiet(s) && CanRun(s, es) && NeverChecks(s, es)
    requires RunTo(s, es).status.Exited? && CanRun(RunTo(s, es), later)
    ensures RunTo(RunTo(s, es), later).status.Exited?
  {
    QuietRun(s, es);
    ExitedStays(RunTo(s, es), later);
  }

  /** And only sessions of launched executables enter it, when their root exits last. */
  lemma OnlyLaunchedCheck(s: State, e: Event)
    requires Enabled(s, e) && !s.status.CheckingCorrelated?
    ensures Next(s, e).status.CheckingCorrelated? <==>
      e.RootExit? && s.kind.Launched? && !Over(s.status) && !HasLive(MarkExited(s.processes, s.rootPid))
  {
  }

  const TWO_RESUMPTIONS: seq<Event> := [HandoffResume(0, NoCandidate), HandoffResume(0, NoCandidate)]

  /** A handoff task that is left alone gets to its last await. */
  lemma HandoffReachesSnapshot(s: State)
    requires s.handoffs == [Entered] && !Over(s.status)
    ensures CanRun(s, TWO_RESUMPTIONS)
    ensures RunTo(s, TWO_RESUMPTIONS) == s.(handoffs := [AwaitingSnapshot])
  {
    var es := TWO_RESUMPTIONS;
    var s1 := Next(s, es[0]);
    assert s1.handoffs == [Delaying];
    var s2 := Next(s1, es[1]);
    assert s2.handoffs == [AwaitingSnapshot];
    RunStep(s1, es[1..]);
    RunStep(s, es);
  }

  /** A stop can be undone: a launched executable's root exits, its handoff task gets as far as
      awaiting the process snapshot, the user stops the session, and the handoff puts it back
      to waiting. */
  lemma StopIsUndone(rootPid: int, graceSeconds: int)
    ensures var s := Opened(Launched, Settings(true, graceSeconds), rootPid, 0);
            && CanRun(Next(s, RootExit), TWO_RESUMPTIONS)
            && var stopped := Next(RunTo(Next(s, RootExit), TWO_RESUMPTIONS), Stop({}));
               && stopped.status.Exited? && Enabled(stopped, HandoffResume(0, NoCandidate))
               && Next(stopped, HandoffResume(0, NoCandidate)).status.WaitingForRestart?
  {
    var s := Opened(Launched, Settings(true, graceSeconds), rootPid, 0);
    assert Next(s, RootExit).status.CheckingCorrelated?;
    HandoffReachesSnapshot(Next(s, RootExit));
  }

  lemma RunStep(s: State, es: seq<Event>)
    requires es != [] && Enabled(s, es[0]) && CanRun(Next(s, es[0]), es[1..])
    ensures CanRun(s, es) && RunTo(s, es) == RunTo(Next(s, es[0]), es[1..])
  {
  }

  /** Pending work that can take the session out of exited: a dialog, or a handoff task in its last
      await. */
  predicate Revivable(s: State) {
    || s.prompts > 0
    || exists i :: 0 <= i < |s.handoffs| && s.handoffs[i].AwaitingSnapshot?
  }

  predicate LeavesExited(s: State, es: seq<Event>) {
    CanRun(s, es) && !RunTo(s, es).status.Exited?
  }

  lemma FinalStep(s: State, e: Event)
    requires s.status.Exited? && !Revivable(s) && Enabled(s, e)
    ensures Next(s, e).status.Exited? && !Revivable(Next(s, e))
  {
  }

  lemma {:induction false} FinalRun(s: State, es: seq<Event>)
    requires s.status.Exited? && !Revivable(s) && CanRun(s, es)
    ensures RunTo(s, es).status.Exited?
    decreases |es|
  {
    if es != [] {
      FinalStep(s, es[0]);
      FinalRun(Next(s, es[0]), es[1..]);
    }
  }

  /** One of its events takes a revivable session out of exited. */
  lemma Revived(s: State) returns (e: Event)
    requires s.status.Exited? && Revivable(s)
    ensures Enabled(s, e) && Revives(s, e)
  {
    if s.prompts > 0 {
      e := Answer(Some(0));
    } else {
      var i :| 0 <= i < |s.handoffs| && s.handoffs[i].AwaitingSnapshot?;
      e := HandoffResume(i, Attach(0));
    }
  }

  /** Exactly when exited lasts: some run leaves it if and only if such work is pending. */
  lemma ExitedLastsIff(s: State)
    requires s.status.Exited?
    ensures (exists es :: LeavesExited(s, es)) <==> Revivable(s)
  {
    if Revivable(s) {
      var e := Revived(s);
      OnlyHandoffsRevive(s, e);
      assert [e][1..] == [];
      RunStep(s, [e]);
      assert LeavesExited(s, [e]);
    }
    if es :| LeavesExited(s, es) {
      if !Revivable(s) {
        FinalRun(s, es);
      }
    }
  }

  /** So a caller can tell before a stop whether it will last: it does while a handoff has not begun or
      is in its delay, and need not once the handoff awaits its snapshot or asks the user. */
  lemma StopLastsIff(s: State, gone: set<int>)
    requires !Over(s.status)
    ensures (exists es :: LeavesExited(Next(s, Stop(gone)), es)) <==> Revivable(s)
  {
    ExitedLastsIff(Next(s, Stop(gone)));
  }

  // ----- bounded waiting -----

  /** No pending timer is overdue. */
  predicate TimersSound(s: State) {
    forall due | due in s.timers :: s.now <= due
  }

  lemma GraceSound(s: State)
    requires TimersSound(s)
    ensures TimersSound(BeginGraceOrFinalize(s))
  {
  }

  lemma TimersSoundStep(s: State, e: Event)
    requires TimersSound(s) && Enabled(s, e)
    ensures TimersSound(Next(s, e))
  {
    match e
    case RootExit => GraceSound(s.(processes := MarkExited(s.processes, s.rootPid)));
    case MergedExit(pid) => GraceSound(s.(processes := MarkExited(s.processes, pid)));
    case CorrelatedExit(pid) => GraceSound(s.(processes := MarkExited(s.processes, pid)));
    case MonitorTick(dead) => GraceSound(s.(processes := MarkDead(s.processes, dead)));
    case HandoffResume(i, decision) => HandoffSound(s, i, decision);
    case HandoffFault(i) => GraceSound(s.(handoffs := Without(s.handoffs, i)));
    case _ =>
  }

  lemma HandoffSound(s: State, i: nat, decision: Decision)
    requires TimersSound(s) && i < |s.handoffs|
    ensures TimersSound(HandoffResumed(s, i, decision))
  {
    GraceSound(s.(handoffs := Without(s.handoffs, i)));
  }

  lemma {:induction false} TimersSoundRun(s: State, es: seq<Event>)
    requires TimersSound(s) && CanRun(s, es)
    ensures TimersSound(RunTo(s, es))
    decreases |es|
  {
    if es != [] {
      TimersSoundStep(s, es[0]);
      TimersSoundRun(Next(s, es[0]), es[1..]);
    }
  }

  /** The session waits in every state of the run: one continuous stretch. */
  predicate KeepsWaiting(s: State, es: seq<Event>)
    requires CanRun(s, es)
    decreases |es|
  {
    s.status.WaitingForRestart? && (es == [] || KeepsWaiting(Next(s, es[0]), es[1..]))
  }

  /** While a session waits no pending timer goes away without ending the wait. */
  lemma TimerOutlastsStep(s: State, e: Event, due: nat)
    requires Enabled(s, e) && s.status.WaitingForRestart? && Next(s, e).status.WaitingForRestart?
    requires due in s.timers
    ensures due in Next(s, e).timers
  {
  }

  lemma {:induction false} TimerOutlastsStretch(s: State, es: seq<Event>, due: nat)
    requires CanRun(s, es) && KeepsWaiting(s, es) && due in s.timers
    ensures due in RunTo(s, es).timers
    decreases |es|
  {
    if es != [] {
      assert KeepsWaiting(Next(s, es[0]), es[1..]);
      TimerOutlastsStep(s, es[0], due);
      TimerOutlastsStretch(Next(s, es[0]), es[1..], due);
    }
  }

  /** Only the beginning of a grace window makes a session wait. */
  lemma StretchBegins(s: State, e: Event)
    requires Enabled(s, e) && !s.status.WaitingForRestart? && Next(s, e).status.WaitingForRestart?
    ensures Next(s, e).now == s.now && s.settings.supervised
    ensures Next(s, e).timers == WithGraceTimer(s.timers, s.now, s.settings.graceSeconds)
  {
    assert !e.TimerFires?;
  }

  /** A stretch begins with a timer for the whole grace window on top of the older ones, if its
      delay is accepted. */
  lemma StretchHasTimer(s: State, e: Event)
    requires Enabled(s, e) && !s.status.WaitingForRestart? && Next(s, e).status.WaitingForRestart?
    ensures Next(s, e).now == s.now && s.settings.supervised
    ensures !DelayAccepted(s.settings.graceSeconds) ==> Next(s, e).timers == s.timers
    ensures DelayAccepted(s.settings.graceSeconds) ==>
      Next(s, e).timers == s.timers + multiset{s.now + s.settings.graceSeconds}
  {
    StretchBegins(s, e);
  }

  /** Bounded waiting: from the step that makes a session wait, and for as long as it keeps waiting
      without a break, through any merges, exits and handoffs, some pending timer is due no later
      than the grace period after that step, and the stretch lasts no longer. */
  lemma BoundedWaiting(s: State, e: Event, es: seq<Event>)
    requires TimersSound(s) && DelayAccepted(s.settings.graceSeconds)
    requires Enabled(s, e) && !s.status.WaitingForRestart?
    requires CanRun(Next(s, e), es) && KeepsWaiting(Next(s, e), es)
    ensures s.now + s.settings.graceSeconds in RunTo(Next(s, e), es).timers
    ensures RunTo(Next(s, e), es).now <= s.now + s.settings.graceSeconds
  {
    StretchHasTimer(s, e);
    TimerOutlastsStretch(Next(s, e), es, s.now + s.settings.graceSeconds);
    TimersSoundStep(s, e);
    TimersSoundRun(Next(s, e), es);
  }

  /** How long a wait lasts if nothing else happens: exactly until the earliest pending timer, which
      then ends the session. It is the whole window if and only if no older timer is due earlier. */
  lemma WaitEndsAtEarliestTimer(s: State, first: nat)
    requires TimersSound(s) && s.status.WaitingForRestart?
    requires first in s.timers && forall due | due in s.timers :: first <= due
    ensures var es := [Advance(first - s.now)];
            && CanRun(s, es) && KeepsWaiting(s, es) && RunTo(s, es).now == first
            && Enabled(RunTo(s, es), TimerFires(first)) && Next(RunTo(s, es), TimerFires(first)).status.Exited?
    ensures forall seconds: nat | s.now + seconds > first :: !Enabled(s, Advance(seconds))
  {
    RunStep(s, [Advance(first - s.now)]);
  }

  lemma FullWindowIff(s: State, e: Event)
    requires TimersSound(s) && DelayAccepted(s.settings.graceSeconds)
    requires Enabled(s, e) && !s.status.WaitingForRestart? && Next(s, e).status.WaitingForRestart?
    ensures Enabled(Next(s, e), Advance(s.settings.graceSeconds))
       <==> forall due | due in s.timers :: s.now + s.settings.graceSeconds <= due
  {
    var u := Next(s, e);
    StretchHasTimer(s, e);
    assert forall due | due in s.timers :: due in u.timers;
  }

  /** Nothing happens to the session but that time passes and its timers fire. */
  predicate LeftAlone(es: seq<Event>) {
    forall e | e in es :: e.Advance? || e.TimerFires?
  }

  predicate EndsWait(s: State, es: seq<Event>) {
    LeftAlone(es) && CanRun(s, es) && !RunTo(s, es).status.WaitingForRestart?
  }

  lemma {:induction false} WaitsOn(s: State, es: seq<Event>)
    requires s.status.WaitingForRestart? && s.timers == multiset{}
    requires CanRun(s, es) && LeftAlone(es)
    ensures RunTo(s, es).status.WaitingForRestart?
    decreases |es|
  {
    if es != [] {
      assert es[0] in es && es[0].Advance?;
      WaitsOn(Next(s, es[0]), es[1..]);
    }
  }

  lemma EarliestTimer(timers: multiset<nat>) returns (first: nat)
    requires timers != multiset{}
    ensures first in timers && forall due | due in timers :: first <= due
    decreases |timers|
  {
    first :| first in timers;
    var rest := timers[first := 0];
    assert forall due | due in timers :: due == first || due in rest;
    if rest != multiset{} {
      var other := EarliestTimer(rest);
      first := if other < first then other else first;
    }
  }

  /** A process that joins a waiting session, merged or from outside, is tracked and live, and the
      session runs again. */
  lemma MergeRescues(s: State, e: Event, pid: int)
    requires s.status.WaitingForRestart? && !Tracked(s.processes, pid) && Enabled(s, e)
    requires (e.Merge? && e.pid == pid) || e == MergeExternal(pid)
    ensures Next(s, e).status == Running && HasLive(Next(s, e).processes)
    ensures exists p :: p in Next(s, e).processes && p.pid == pid && p.live
    ensures Next(s, e).processes[..|s.processes|] == s.processes
  {
    var role := if e.Merge? then RestartedChild else Root;
    assert Next(s, e).processes == s.processes + [Process(pid, role, true)];
    assert Next(s, e).processes[|s.processes|] == Process(pid, role, true);
  }

  /** It then goes on running, whatever timers of the old wait fire. */
  lemma {:induction false} RescueLasts(s: State, e: Event, pid: int, es: seq<Event>)
    requires s.status.WaitingForRestart? && !Tracked(s.processes, pid) && Enabled(s, e)
    requires (e.Merge? && e.pid == pid) || e == MergeExternal(pid)
    requires CanRun(Next(s, e), es) && LeftAlone(es)
    ensures RunTo(Next(s, e), es).status == Running && RunTo(Next(s, e), es).processes == Next(s, e).processes
  {
    MergeRescues(s, e, pid);
    RunsOn(Next(s, e), es);
  }

  lemma {:induction false} RunsOn(s: State, es: seq<Event>)
    requires !s.status.WaitingForRestart? && CanRun(s, es) && LeftAlone(es)
    ensures RunTo(s, es).status == s.status && RunTo(s, es).processes == s.processes
    decreases |es|
  {
    if es != [] {
      assert es[0] in es;
      RunsOn(Next(s, es[0]), es[1..]);
    }
  }

  /** A waiting session that is left alone comes to an end if and only if a timer is pending. */
  lemma WaitEndsIff(s: State)
    requires TimersSound(s) && s.status.WaitingForRestart?
    ensures (exists es :: EndsWait(s, es)) <==> s.timers != multiset{}
  {
    if s.timers != multiset{} {
      var first := EarliestTimer(s.timers);
      WaitEndsAtEarliestTimer(s, first);
      var u, es := Next(s, Advance(first - s.now)), [Advance(first - s.now), TimerFires(first)];
      assert es[1..][1..] == [];
      RunStep(u, es[1..]);
      RunStep(s, es);
      assert EndsWait(s, es);
    }
    if es :| EndsWait(s, es) {
      if s.timers == multiset{} {
        WaitsOn(s, es);
      }
    }
  }

  /** A grace window can end by itself exactly when its delay is accepted or an older timer is
      pending. */
  lemma GraceEndsIff(s: State, e: Event)
    requires TimersSound(s) && Enabled(s, e)
    requires !s.status.WaitingForRestart? && Next(s, e).status.WaitingForRestart?
    ensures (exists es :: EndsWait(Next(s, e), es)) <==>
      DelayAccepted(s.settings.graceSeconds) || s.timers != multiset{}
  {
    StretchHasTimer(s, e);
    TimersSoundStep(s, e);
    WaitEndsIff(Next(s, e));
  }

  /** With a refused delay and no older timer, time can pass without bound and the session still
      waits. */
  lemma RefusedGraceWaitsForever(s: State, e: Event, seconds: nat)
    requires s.timers == multiset{} && !DelayAccepted(s.settings.graceSeconds)
    requires Enabled(s, e) && !s.status.WaitingForRestart? && Next(s, e).status.WaitingForRestart?
    ensures Enabled(Next(s, e), Advance(seconds))
    ensures Next(Next(s, e), Advance(seconds)).status.WaitingForRestart?
  {
    StretchHasTimer(s, e);
  }
}
