/**
 The lifecycle manager of the desktop app's kernel process.

 JavaScript runs one callback at a time, so every callback is one atomic step:
 `start`, `stop`, the continuation of a health probe, a child event and a timer
 callback.  `System` holds the fields of the manager together with the
 environment it talks to: probes still awaited, children and their exit guards,
 timers that were set, and the log of effects.  An event that cannot occur in a
 state leaves it unchanged, so every event sequence is a run.
 */
module Sidecar {
  import opened Common

  const RESTART_BACKOFF_MS: seq<nat> := [1000, 2000, 5000, 15000, 60000]

  datatype Phase = Idle | Probing | Running | External | RestartQueued | Stopping | Stopped

  datatype Effect =
    | Begun
    | Probed(epoch: nat)
    | Spawned(pid: nat)
    | Killed(pid: nat)
    | Armed(timer: nat, ms: nat)

  datatype System = System(
    phase: Phase,
    process: Option<nat>,
    backoffIndex: nat,
    pendingRestart: Option<nat>,
    probeEpoch: nat,
    probes: set<nat>,       // epochs whose health check has not resolved
    exitFired: seq<bool>,   // one exit guard per spawned child
    timers: set<nat>,       // timers set whose callback has not run, cancelled ones included
    cancelled: set<nat>,
    nextTimer: nat,
    log: seq<Effect>)

  datatype Event =
    | StartCalled
    | StopCalled
    | ProbeResolved(epoch: nat, alive: bool)
    | ChildExited(pid: nat)  // a raw `exit` or `error` event, any number of times per child
    | TimerFired(timer: nat)

  const INIT := System(Idle, None, 0, None, 0, {}, [], {}, {}, 0, [])

  /** The restart delay after `crashes` earlier crashes. */
  function Backoff(crashes: nat): nat {
    RESTART_BACKOFF_MS[if crashes < |RESTART_BACKOFF_MS| - 1 then crashes else |RESTART_BACKOFF_MS| - 1]
  }

  function BeginProbe(s: System): System {
    s.(phase := Probing,
       probeEpoch := s.probeEpoch + 1,
       probes := s.probes + {s.probeEpoch + 1},
       log := s.log + [Probed(s.probeEpoch + 1)])
  }

  function Start(s: System): System {
    if s.phase.Idle? || s.phase.Stopped?
    then BeginProbe(s.(backoffIndex := 0, log := s.log + [Begun]))
    else s
  }

  function CancelRestart(s: System): System {
    match s.pendingRestart
    case Some(h) => s.(pendingRestart := None, cancelled := s.cancelled + {h})
    case None => s
  }

  function Stop(s: System): System {
    var c := CancelRestart(s);
    match c.phase
    case Stopping => c
    case Stopped => c
    case Running =>
      c.(phase := Stopping, log := c.log + if c.process.Some? then [Killed(c.process.value)] else [])
    case _ => c.(phase := Stopped)
  }

  function SpawnKernel(s: System): System {
    s.(process := Some(|s.exitFired|),
       phase := Running,
       exitFired := s.exitFired + [false],
       log := s.log + [Spawned(|s.exitFired|)])
  }

  function Verdict(s: System, epoch: nat, alive: bool): System {
    var r := s.(probes := s.probes - {epoch});
    if r.probeEpoch != epoch || !r.phase.Probing? then r
    else if alive then r.(phase := External)
    else SpawnKernel(r)
  }

  /** The exit handler registered with the child. */
  function OnExit(s: System): System {
    var r := s.(process := None);
    match r.phase
    case Stopped => r
    case Idle => r
    case Stopping => r.(phase := Stopped)
    case _ =>
      r.(backoffIndex := r.backoffIndex + 1,
         phase := RestartQueued,
         pendingRestart := Some(r.nextTimer),
         timers := r.timers + {r.nextTimer},
         nextTimer := r.nextTimer + 1,
         log := r.log + [Armed(r.nextTimer, Backoff(r.backoffIndex))])
  }

  /** A raw child event behind the single-fire guard. */
  function ChildEvent(s: System, pid: nat): System
    requires pid < |s.exitFired|
  {
    if s.exitFired[pid] then s else OnExit(s.(exitFired := s.exitFired[pid := true]))
  }

  function Fire(s: System, timer: nat): System {
    var r := s.(timers := s.timers - {timer}, pendingRestart := None);
    if r.phase.RestartQueued? then BeginProbe(r) else r
  }

  predicate Enabled(s: System, ev: Event) {
    match ev
    case StartCalled => true
    case StopCalled => true
    case ProbeResolved(epoch, _) => epoch in s.probes
    case ChildExited(pid) => pid < |s.exitFired|
    case TimerFired(timer) => timer in s.timers
  }

  function Next(s: System, ev: Event): System {
    if !Enabled(s, ev) then s else
    match ev
    case StartCalled => Start(s)
    case StopCalled => Stop(s)
    case ProbeResolved(epoch, alive) => Verdict(s, epoch, alive)
    case ChildExited(pid) => ChildEvent(s, pid)
    case TimerFired(timer) => Fire(s, timer)
  }

  function After(s: System, evs: seq<Event>): System
    decreases |evs|
  {
    if evs == [] then s else After(Next(s, evs[0]), evs[1..])
  }

  /** No cancelled timer fires: what `clearTimeout` promises. */
  ghost predicate CancellationWorks(s: System, evs: seq<Event>)
    decreases |evs|
  {
    evs == [] ||
    ((evs[0].TimerFired? ==> evs[0].timer !in s.cancelled) && CancellationWorks(Next(s, evs[0]), evs[1..]))
  }

  /** A spawned kernel whose exit has not been delivered to the manager. */
  predicate Live(s: System, pid: nat) {
    pid < |s.exitFired| && !s.exitFired[pid]
  }

  predicate OwnsKernel(s: System) {
    s.phase.Running? || s.phase.Stopping?
  }

  /** The delays armed since the last effective start, oldest first. */
  function Delays(log: seq<Effect>): seq<nat> {
    if log == [] then [] else
    var last, rest := log[|log| - 1], log[..|log| - 1];
    match last
    case Begun => []
    case Armed(_, ms) => Delays(rest) + [ms]
    case _ => Delays(rest)
  }

  ghost predicate FollowsBackoff(s: System) {
    && |Delays(s.log)| == s.backoffIndex
    && forall n :: 0 <= n < s.backoffIndex ==> Delays(s.log)[n] == Backoff(n)
  }

  ghost predicate Inv(s: System) {
    && (OwnsKernel(s) <==> s.process.Some?)
    && (s.process.Some? ==> Live(s, s.process.value))
    && (forall pid: nat :: Live(s, pid) ==> s.process == Some(pid))
    && (s.phase.Stopping? ==> s.process.Some? && Killed(s.process.value) in s.log)
    && (s.phase.Probing? ==> s.probeEpoch in s.probes)
    && (forall e :: e in s.probes ==> e <= s.probeEpoch)
    && (forall h :: h in s.timers ==> h < s.nextTimer)
    && (forall h :: h in s.cancelled ==> h < s.nextTimer)
    && (s.pendingRestart.Some? ==> s.pendingRestart.value < s.nextTimer)
    && FollowsBackoff(s)
  }

  /** What also holds as long as cancelled timers stay silent. */
  ghost predicate TimerInv(s: System) {
    && (s.phase.RestartQueued? <==> s.pendingRestart.Some?)
    && (forall h :: h in s.timers && h !in s.cancelled <==> s.pendingRestart == Some(h))
  }

  lemma DelaysOfAppend(log: seq<Effect>, e: Effect)
    ensures Delays(log + [e]) ==
            if e.Begun? then [] else if e.Armed? then Delays(log) + [e.ms] else Delays(log)
  {
    assert (log + [e])[..|log|] == log;
  }

  lemma StartKeepsInv(s: System)
    requires Inv(s)
    ensures Inv(Start(s))
  {
    if s.phase.Idle? || s.phase.Stopped? {
      DelaysOfAppend(s.log, Begun);
      DelaysOfAppend(s.log + [Begun], Probed(s.probeEpoch + 1));
    }
  }

  lemma StopKeepsInv(s: System)
    requires Inv(s)
    ensures Inv(Stop(s))
  {
    if s.process.Some? {
      DelaysOfAppend(s.log, Killed(s.process.value));
    }
    assert s.log + [] == s.log;
  }

  lemma VerdictKeepsInv(s: System, epoch: nat, alive: bool)
    requires Inv(s) && epoch in s.probes
    ensures Inv(Verdict(s, epoch, alive))
  {
    DelaysOfAppend(s.log, Spawned(|s.exitFired|));
  }

  lemma ChildEventKeepsInv(s: System, pid: nat)
    requires Inv(s) && pid < |s.exitFired|
    ensures Inv(ChildEvent(s, pid))
  {
    if !s.exitFired[pid] {
      assert Live(s, pid);
      DelaysOfAppend(s.log, Armed(s.nextTimer, Backoff(s.backoffIndex)));
    }
  }

  lemma FireKeepsInv(s: System, timer: nat)
    requires Inv(s) && timer in s.timers
    ensures Inv(Fire(s, timer))
  {
    DelaysOfAppend(s.log, Probed(s.probeEpoch + 1));
  }

  lemma NextKeepsInv(s: System, ev: Event)
    requires Inv(s)
    ensures Inv(Next(s, ev))
  {
    if Enabled(s, ev) {
      match ev
      case StartCalled => StartKeepsInv(s);
      case StopCalled => StopKeepsInv(s);
      case ProbeResolved(epoch, alive) => VerdictKeepsInv(s, epoch, alive);
      case ChildExited(pid) => ChildEventKeepsInv(s, pid);
      case TimerFired(timer) => FireKeepsInv(s, timer);
    }
  }

  lemma {:induction false} RunKeepsInv(s: System, evs: seq<Event>)
    requires Inv(s)
    ensures Inv(After(s, evs))
    decreases |evs|
  {
    if evs != [] {
      NextKeepsInv(s, evs[0]);
      RunKeepsInv(Next(s, evs[0]), evs[1..]);
    }
  }

  lemma NextKeepsTimerInv(s: System, ev: Event)
    requires Inv(s) && TimerInv(s)
    requires ev.TimerFired? ==> ev.timer !in s.cancelled
    ensures TimerInv(Next(s, ev))
  {
    if ev.ChildExited? && Enabled(s, ev) && !s.exitFired[ev.pid] {
      assert Live(s, ev.pid);
    }
  }

  lemma {:induction false} RunKeepsTimerInv(s: System, evs: seq<Event>)
    requires Inv(s) && TimerInv(s) && CancellationWorks(s, evs)
    ensures TimerInv(After(s, evs))
    decreases |evs|
  {
    if evs != [] {
      NextKeepsInv(s, evs[0]);
      NextKeepsTimerInv(s, evs[0]);
      RunKeepsTimerInv(Next(s, evs[0]), evs[1..]);
    }
  }

  /** In every interleaving at most one kernel is alive, and one is alive exactly in `running` and `stopping`. */
  lemma AtMostOneKernel(evs: seq<Event>)
    ensures var s := After(INIT, evs);
            && (forall p: nat, q: nat :: Live(s, p) && Live(s, q) ==> p == q)
            && ((exists p: nat :: Live(s, p)) <==> OwnsKernel(s))
            && (s.phase.Stopping? ==> exists p: nat :: Live(s, p) && Killed(p) in s.log)
  {
    RunKeepsInv(INIT, evs);
    var s := After(INIT, evs);
    if OwnsKernel(s) {
      assert Live(s, s.process.value);
    }
  }

  /** The only ways to change phase: which event may move which phase to which. */
  ghost predicate Edge(s: System, ev: Event, to: Phase) {
    match ev
    case StartCalled => (s.phase.Idle? || s.phase.Stopped?) && to.Probing?
    case StopCalled =>
      if s.phase.Running? then to.Stopping? else !s.phase.Stopping? && !s.phase.Stopped? && to.Stopped?
    case ProbeResolved(epoch, alive) =>
      s.phase.Probing? && epoch == s.probeEpoch && to == if alive then External else Running
    case ChildExited(pid) =>
      s.process == Some(pid) && ((s.phase.Running? && to.RestartQueued?) || (s.phase.Stopping? && to.Stopped?))
    case TimerFired(_) => s.phase.RestartQueued? && to.Probing?
  }

  /**
   Every phase change of every run is one of these edges: a probe decides only while it is the latest
   one issued, and an exit counts only when it is the current kernel's.
   */
  lemma PhaseChangesFollowEdges(evs: seq<Event>, ev: Event)
    ensures var s := After(INIT, evs);
            Next(s, ev).phase != s.phase ==> Edge(s, ev, Next(s, ev).phase)
  {
    RunKeepsInv(INIT, evs);
    var s := After(INIT, evs);
    if ev.ChildExited? && Enabled(s, ev) && !s.exitFired[ev.pid] {
      assert Live(s, ev.pid);
    }
  }

  /**
   And every edge is taken: a call to start or stop, the answer to a probe in flight, the first exit of a
   child and an armed timer move the phase as the edge says.
   */
  lemma EdgesAreTaken(evs: seq<Event>, ev: Event, to: Phase)
    requires var s := After(INIT, evs);
             && Edge(s, ev, to)
             && (ev.ProbeResolved? ==> ev.epoch in s.probes)
             && (ev.ChildExited? ==> Live(s, ev.pid))
             && (ev.TimerFired? ==> ev.timer in s.timers)
    ensures Next(After(INIT, evs), ev).phase == to
  {
    RunKeepsInv(INIT, evs);
  }

  /** The effects of a step, told by the phase change it makes. */
  function EffectsOf(s: System, ev: Event, to: Phase): seq<Effect> {
    match to
    case Probing => (if ev.StartCalled? then [Begun] else []) + [Probed(s.probeEpoch + 1)]
    case Running => [Spawned(|s.exitFired|)]
    case Stopping => if s.process.Some? then [Killed(s.process.value)] else []
    case RestartQueued => [Armed(s.nextTimer, Backoff(s.backoffIndex))]
    case _ => []
  }

  ghost predicate Acts(s: System, ev: Event, t: System) {
    && (t.phase == s.phase ==> t.log == s.log)
    && (t.phase != s.phase ==>
          && t.log == s.log + EffectsOf(s, ev, t.phase)
          && (t.phase.Probing? ==> t.probeEpoch == s.probeEpoch + 1 && t.probeEpoch in t.probes)
          && (t.phase.Probing? && ev.StartCalled? ==> t.backoffIndex == 0)
          && (t.phase.Running? ==> t.process == Some(|s.exitFired|))
          && (t.phase.Stopping? ==> s.process.Some? && t.process == s.process)
          && (t.phase.RestartQueued? ==> t.pendingRestart == Some(s.nextTimer) && s.nextTimer in t.timers))
  }

  lemma StartActs(s: System)
    ensures Acts(s, StartCalled, Start(s))
  {
    assert s.log + [Begun] + [Probed(s.probeEpoch + 1)] == s.log + ([Begun] + [Probed(s.probeEpoch + 1)]);
  }

  lemma StopActs(s: System)
    requires Inv(s)
    ensures Acts(s, StopCalled, Stop(s))
  {
    assert s.log + [] == s.log;
  }

  lemma VerdictActs(s: System, epoch: nat, alive: bool)
    ensures Acts(s, ProbeResolved(epoch, alive), Verdict(s, epoch, alive))
  {
    assert s.log + [] == s.log;
  }

  lemma ExitActs(s: System, pid: nat)
    requires Inv(s) && pid < |s.exitFired|
    ensures Acts(s, ChildExited(pid), ChildEvent(s, pid))
  {
    assert s.log + [] == s.log;
    if !s.exitFired[pid] { assert Live(s, pid); }
  }

  lemma TimerActs(s: System, timer: nat)
    ensures Acts(s, TimerFired(timer), Fire(s, timer))
  {
    assert [] + [Probed(s.probeEpoch + 1)] == [Probed(s.probeEpoch + 1)];
  }

  /**
   What a phase change does in every run, and that a step without one has no effect: a probe is sent under a
   new epoch, a start also forgets earlier crashes, a kernel is spawned, killed or waited for, and a restart
   timer is armed after a crash.
   */
  lemma EveryChangeActs(evs: seq<Event>, ev: Event)
    ensures Acts(After(INIT, evs), ev, Next(After(INIT, evs), ev))
  {
    var s := After(INIT, evs);
    RunKeepsInv(INIT, evs);
    if Enabled(s, ev) {
      match ev
      case StartCalled => StartActs(s);
      case StopCalled => StopActs(s);
      case ProbeResolved(epoch, alive) => VerdictActs(s, epoch, alive);
      case ChildExited(pid) => ExitActs(s, pid);
      case TimerFired(timer) => TimerActs(s, timer);
    }
  }

  /** A stop cancels the queued restart, and nothing else is ever cancelled. */
  lemma StopCancels(s: System, ev: Event)
    ensures Next(s, ev).cancelled ==
            s.cancelled + if ev.StopCalled? && s.pendingRestart.Some? then {s.pendingRestart.value} else {}
    ensures ev.StopCalled? ==> Next(s, ev).pendingRestart == None
  {
  }

  /** The n-th crash since the last effective start waits entry min(n, 4) of the backoff table. */
  lemma BackoffSchedule(evs: seq<Event>, n: nat)
    requires n < |Delays(After(INIT, evs).log)|
    ensures Delays(After(INIT, evs).log)[n] == RESTART_BACKOFF_MS[if n < 4 then n else 4]
  {
    RunKeepsInv(INIT, evs);
  }

  lemma {:induction false} AfterSnoc(s: System, evs: seq<Event>, ev: Event)
    requires CancellationWorks(s, evs)
    requires ev.TimerFired? ==> ev.timer !in After(s, evs).cancelled
    ensures After(s, evs + [ev]) == Next(After(s, evs), ev)
    ensures CancellationWorks(s, evs + [ev])
    decreases |evs|
  {
    if evs != [] {
      assert (evs + [ev])[1..] == evs[1..] + [ev];
      AfterSnoc(Next(s, evs[0]), evs[1..], ev);
    }
  }

  lemma SpawnHappens(s: System)
    requires Inv(s) && s.phase.Probing?
    ensures var t := Next(s, ProbeResolved(s.probeEpoch, false));
            && t.phase.Running? && t.process == Some(|s.exitFired|) && |t.exitFired| == |s.exitFired| + 1
            && t.backoffIndex == s.backoffIndex && t.cancelled == s.cancelled
  {
  }

  lemma CrashHappens(s: System, pid: nat)
    requires Inv(s) && s.phase.Running? && s.process == Some(pid)
    ensures var t := Next(s, ChildExited(pid));
            && t.phase.RestartQueued? && s.nextTimer in t.timers && t.backoffIndex == s.backoffIndex + 1
            && |t.exitFired| == |s.exitFired| && t.cancelled == s.cancelled && s.nextTimer !in s.cancelled
            && Next(t, TimerFired(s.nextTimer)).phase.Probing?
            && Next(t, TimerFired(s.nextTimer)).exitFired == t.exitFired
            && Next(t, TimerFired(s.nextTimer)).cancelled == t.cancelled
            && Next(t, TimerFired(s.nextTimer)).backoffIndex == t.backoffIndex
  {
  }

  /** Crash series of any length happen: the kernel is running again after `n` crashes, each with its delay. */
  lemma {:induction false} CrashSeriesHappens(n: nat) returns (evs: seq<Event>)
    ensures var s := After(INIT, evs);
            && CancellationWorks(INIT, evs) && s.phase.Running? && |s.exitFired| == n + 1
            && |Delays(s.log)| == s.backoffIndex == n
    decreases n
  {
    if n == 0 {
      evs := [];
      AfterSnoc(INIT, evs, StartCalled);
      evs := evs + [StartCalled];
    } else {
      evs := CrashSeriesHappens(n - 1);
      var s := After(INIT, evs);
      RunKeepsInv(INIT, evs);
      CrashHappens(s, s.process.value);
      AfterSnoc(INIT, evs, ChildExited(s.process.value));
      evs := evs + [ChildExited(s.process.value)];
      AfterSnoc(INIT, evs, TimerFired(s.nextTimer));
      evs := evs + [TimerFired(s.nextTimer)];
    }
    var s := After(INIT, evs);
    RunKeepsInv(INIT, evs);
    SpawnHappens(s);
    AfterSnoc(INIT, evs, ProbeResolved(s.probeEpoch, false));
    evs := evs + [ProbeResolved(s.probeEpoch, false)];
    RunKeepsInv(INIT, evs);
  }

  /** When cancellation works, no transient phase can be left waiting for nothing. */
  lemma NoTransientPhaseIsStuck(evs: seq<Event>)
    requires CancellationWorks(INIT, evs)
    ensures var s := After(INIT, evs);
            && (s.phase.Probing? ==> s.probeEpoch in s.probes)
            && (s.phase.RestartQueued? ==> s.pendingRestart.Some? && s.timers - s.cancelled == {s.pendingRestart.value})
            && (!s.phase.RestartQueued? ==> s.timers - s.cancelled == {})
  {
    RunKeepsInv(INIT, evs);
    RunKeepsTimerInv(INIT, evs);
  }

  /** The effects a run adds to the log. */
  function NewEffects(s: System, evs: seq<Event>): seq<Effect>
    requires s.log <= After(s, evs).log
  {
    After(s, evs).log[|s.log|..]
  }

  lemma {:induction false} LogGrows(s: System, evs: seq<Event>)
    ensures s.log <= After(s, evs).log
    decreases |evs|
  {
    if evs != [] {
      LogGrows(Next(s, evs[0]), evs[1..]);
    }
  }

  /** While stopping or stopped the only step with effects but a kill is an effective start, which only probes. */
  lemma QuietStep(s: System, ev: Event)
    requires s.phase.Stopping? || s.phase.Stopped?
    ensures Next(s, ev).log == s.log ==> Next(s, ev).phase.Stopping? || Next(s, ev).phase.Stopped?
    ensures Next(s, ev).log != s.log ==> Next(s, ev).log == s.log + [Begun, Probed(s.probeEpoch + 1)]
  {
  }

  lemma {:induction false} QuietUntilBegun(s: System, evs: seq<Event>, i: nat)
    requires s.phase.Stopping? || s.phase.Stopped?
    requires s.log <= After(s, evs).log
    requires i < |NewEffects(s, evs)| && NewEffects(s, evs)[i].Spawned?
    ensures exists j :: 0 <= j < i && NewEffects(s, evs)[j].Begun?
    decreases |evs|
  {
    var t := Next(s, evs[0]);
    QuietStep(s, evs[0]);
    LogGrows(t, evs[1..]);
    if t.log == s.log {
      QuietUntilBegun(t, evs[1..], i);
    } else {
      assert NewEffects(s, evs)[0] == t.log[|s.log|] && NewEffects(s, evs)[1] == t.log[|s.log| + 1] by {
        assert t.log <= After(s, evs).log;
      }
    }
  }

  /** After `stop()` no kernel is spawned before a later effective `start()`, whatever stale callbacks still run. */
  lemma NothingSpawnsAfterStop(before: seq<Event>, after: seq<Event>, i: nat)
    ensures var s := Stop(After(INIT, before));
            s.log <= After(s, after).log &&
            (i < |NewEffects(s, after)| && NewEffects(s, after)[i].Spawned? ==>
               exists j :: 0 <= j < i && NewEffects(s, after)[j].Begun?)
  {
    var s := Stop(After(INIT, before));
    LogGrows(s, after);
    if i < |NewEffects(s, after)| && NewEffects(s, after)[i].Spawned? {
      QuietUntilBegun(s, after, i);
    }
  }

  /** A duplicate exit of an older child does nothing exactly in the phases the contract names. */
  lemma DuplicateExitIsNoOpIff(evs: seq<Event>)
    ensures var s := After(INIT, evs);
            OnExit(s) == s <==> s.phase.Stopped? || s.phase.Idle?
  {
    RunKeepsInv(INIT, evs);
  }

  /** The restarts that no `stop()` can cancel any more. */
  function Runaway(s: System): set<nat> {
    Stop(s).timers - Stop(s).cancelled
  }

  ghost predicate NoRunaway(s: System) {
    forall h: nat :: h !in Runaway(s)
  }

  /**
   Why the guard is needed: what a duplicate exit does in each other phase of a run.  While a kernel is
   owned, the manager forgets it although it lives, and one restart or start later there are two; a
   queued restart gets a second timer that `stop()` no longer cancels; a probe in flight loses its say;
   an external daemon is no longer deferred to.
   */
  lemma DuplicateExitCorrupts(evs: seq<Event>, alive: bool)
    ensures var s := After(INIT, evs);
            && (s.phase.Running? ==>
                  ForgetsKernel(s) && TwoKernels(Verdict(Fire(OnExit(s), s.nextTimer), s.probeEpoch + 1, false)))
            && (s.phase.Stopping? ==>
                  ForgetsKernel(s) && TwoKernels(Verdict(Start(OnExit(s)), s.probeEpoch + 1, false)))
            && (s.phase.Probing? ==> LosesProbe(s, alive))
            && (s.phase.External? ==> StopsDeferring(s))
            && (CancellationWorks(INIT, evs) ==> NoRunaway(s))
            && (s.phase.RestartQueued? && CancellationWorks(INIT, evs) ==> LosesTimer(s))
  {
    ReachedKernelDoubles(evs);
    ReachedTimerRunsAway(evs);
    ReachedProbeIsLost(evs, alive);
  }

  lemma ReachedKernelDoubles(evs: seq<Event>)
    ensures var s := After(INIT, evs);
            && (s.phase.Running? ==>
                  ForgetsKernel(s) && TwoKernels(Verdict(Fire(OnExit(s), s.nextTimer), s.probeEpoch + 1, false)))
            && (s.phase.Stopping? ==>
                  ForgetsKernel(s) && TwoKernels(Verdict(Start(OnExit(s)), s.probeEpoch + 1, false)))
  {
    RunKeepsInv(INIT, evs);
    var s := After(INIT, evs);
    if s.phase.Running? { RunningDoubles(s); }
    if s.phase.Stopping? { StoppingDoubles(s); }
  }

  lemma ReachedTimerRunsAway(evs: seq<Event>)
    ensures CancellationWorks(INIT, evs) ==> NoRunaway(After(INIT, evs))
    ensures After(INIT, evs).phase.RestartQueued? && CancellationWorks(INIT, evs) ==> LosesTimer(After(INIT, evs))
  {
    RunKeepsInv(INIT, evs);
    if CancellationWorks(INIT, evs) { RunKeepsTimerInv(INIT, evs); }
  }

  lemma ReachedProbeIsLost(evs: seq<Event>, alive: bool)
    ensures After(INIT, evs).phase.Probing? ==> LosesProbe(After(INIT, evs), alive)
    ensures After(INIT, evs).phase.External? ==> StopsDeferring(After(INIT, evs))
  {
    RunKeepsInv(INIT, evs);
  }

  /** A kernel lives in a phase that has none. */
  ghost predicate ForgetsKernel(s: System) {
    s.process.Some? && Live(OnExit(s), s.process.value) && !OwnsKernel(OnExit(s))
  }

  ghost predicate TwoKernels(s: System) {
    exists p: nat, q: nat :: p != q && Live(s, p) && Live(s, q)
  }

  /** No restart escapes `stop()` before, the queued one does after. */
  ghost predicate LosesTimer(s: System) {
    NoRunaway(s) && s.pendingRestart.Some? && forall h: nat :: h in Runaway(OnExit(s)) <==> s.pendingRestart == Some(h)
  }

  /** Whatever the probe in flight finds is ignored. */
  predicate LosesProbe(s: System, alive: bool) {
    s.probeEpoch in s.probes && Verdict(OnExit(s), s.probeEpoch, alive).phase.RestartQueued?
  }

  predicate StopsDeferring(s: System) {
    OnExit(s).phase.RestartQueued? &&
    Verdict(Fire(OnExit(s), s.nextTimer), s.probeEpoch + 1, false).phase.Running?
  }

  lemma RunningDoubles(s: System)
    requires Inv(s) && s.phase.Running?
    ensures ForgetsKernel(s) && TwoKernels(Verdict(Fire(OnExit(s), s.nextTimer), s.probeEpoch + 1, false))
  {
    var u := Verdict(Fire(OnExit(s), s.nextTimer), s.probeEpoch + 1, false);
    assert u.exitFired == s.exitFired + [false];
    assert Live(u, s.process.value) && Live(u, |s.exitFired|);
  }

  lemma StoppingDoubles(s: System)
    requires Inv(s) && s.phase.Stopping?
    ensures ForgetsKernel(s) && TwoKernels(Verdict(Start(OnExit(s)), s.probeEpoch + 1, false))
  {
    var u := Verdict(Start(OnExit(s)), s.probeEpoch + 1, false);
    assert u.exitFired == s.exitFired + [false];
    assert Live(u, s.process.value) && Live(u, |s.exitFired|);
  }

  /** The ports the manager is built with, and what the operating system does behind them. */
  class Runtime {
    var probes: set<nat>
    var exitFired: seq<bool>
    var timers: set<nat>
    var cancelled: set<nat>
    var nextTimer: nat
    var log: seq<Effect>

    constructor ()
      ensures probes == {} && exitFired == [] && timers == {} && cancelled == {}
      ensures nextTimer == 0 && log == []
    {
      probes, exitFired, timers, cancelled, nextTimer, log := {}, [], {}, {}, 0, [];
    }

    method HealthCheck(epoch: nat)
      modifies `probes, `log
      ensures probes == old(probes) + {epoch} && log == old(log) + [Probed(epoch)]
    {
      probes, log := probes + {epoch}, log + [Probed(epoch)];
    }

    method Spawn() returns (pid: nat)
      modifies `exitFired, `log
      ensures pid == old(|exitFired|)
      ensures exitFired == old(exitFired) + [false] && log == old(log) + [Spawned(pid)]
    {
      pid := |exitFired|;
      exitFired, log := exitFired + [false], log + [Spawned(pid)];
    }

    method Kill(pid: nat)
      modifies `log
      ensures log == old(log) + [Killed(pid)]
    {
      log := log + [Killed(pid)];
    }

    method SetTimeout(ms: nat) returns (timer: nat)
      modifies `timers, `nextTimer, `log
      ensures timer == old(nextTimer) && nextTimer == timer + 1
      ensures timers == old(timers) + {timer} && log == old(log) + [Armed(timer, ms)]
    {
      timer := nextTimer;
      timers, nextTimer, log := timers + {timer}, nextTimer + 1, log + [Armed(timer, ms)];
    }

    method Clear(timer: nat)
      modifies `cancelled
      ensures cancelled == old(cancelled) + {timer}
    {
      cancelled := cancelled + {timer};
    }

    /** The single-fire wrapper around a child's `exit` and `error` events. */
    method FireExit(pid: nat) returns (deliver: bool)
      requires pid < |exitFired|
      modifies `exitFired
      ensures deliver == !old(exitFired[pid])
      ensures exitFired == old(exitFired)[pid := true]
    {
      deliver := !exitFired[pid];
      exitFired := exitFired[pid := true];
    }
  }

  class KernelSidecar {
    var phase: Phase
    var process: Option<nat>
    var backoffIndex: nat
    var pendingRestart: Option<nat>
    var probeEpoch: nat
    const deps: Runtime

    ghost function Model(): System
      reads this, deps
    {
      System(phase, process, backoffIndex, pendingRestart, probeEpoch,
             deps.probes, deps.exitFired, deps.timers, deps.cancelled, deps.nextTimer, deps.log)
    }

    constructor (deps: Runtime)
      requires deps.probes == {} && deps.exitFired == [] && deps.timers == {} && deps.cancelled == {}
      requires deps.nextTimer == 0 && deps.log == []
      ensures Model() == INIT && this.deps == deps
    {
      phase, process, backoffIndex, pendingRestart, probeEpoch := Idle, None, 0, None, 0;
      this.deps := deps;
    }

    method StartSidecar()
      modifies this, deps
      ensures Model() == Start(old(Model()))
    {
      if phase.Probing? || phase.Running? || phase.RestartQueued? || phase.External? || phase.Stopping? {
        return;
      }
      deps.log := deps.log + [Begun];
      backoffIndex := 0;
      ProbeAndSpawn();
    }

    /** The part of `_probeAndSpawn` before its `await`. */
    method ProbeAndSpawn()
      modifies this, deps
      ensures Model() == BeginProbe(old(Model()))
    {
      phase := Probing;
      probeEpoch := probeEpoch + 1;
      deps.HealthCheck(probeEpoch);
    }

    /** The part of `_probeAndSpawn` after its `await`. */
    method OnVerdict(epoch: nat, alive: bool)
      modifies this, deps
      ensures Model() == Verdict(old(Model()), epoch, alive)
    {
      deps.probes := deps.probes - {epoch};
      if probeEpoch != epoch { return; }
      if !phase.Probing? { return; }
      if alive {
        phase := External;
        return;
      }
      var pid := deps.Spawn();
      process := Some(pid);
      phase := Running;
    }

    method StopSidecar()
      modifies this, deps
      ensures Model() == Stop(old(Model()))
    {
      if pendingRestart.Some? {
        deps.Clear(pendingRestart.value);
        pendingRestart := None;
      }
      if phase.Stopping? || phase.Stopped? { return; }
      if !phase.Running? {
        phase := Stopped;
        return;
      }
      phase := Stopping;
      if process.Some? {
        deps.Kill(process.value);
      }
    }

    method OnChildEvent(pid: nat)
      requires pid < |deps.exitFired|
      modifies this, deps
      ensures Model() == ChildEvent(old(Model()), pid)
    {
      var deliver := deps.FireExit(pid);
      if deliver {
        HandleExit();
      }
    }

    method HandleExit()
      modifies this, deps
      ensures Model() == OnExit(old(Model()))
    {
      process := None;
      if phase.Stopped? || phase.Idle? { return; }
      if phase.Stopping? {
        phase := Stopped;
        return;
      }
      var delay := Backoff(backoffIndex);
      backoffIndex := backoffIndex + 1;
      phase := RestartQueued;
      var timer := deps.SetTimeout(delay);
      pendingRestart := Some(timer);
    }

    method OnTimer(timer: nat)
      modifies this, deps
      ensures Model() == Fire(old(Model()), timer)
    {
      deps.timers := deps.timers - {timer};
      pendingRestart := None;
      if !phase.RestartQueued? { return; }
      ProbeAndSpawn();
    }
  }
}
