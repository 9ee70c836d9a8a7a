/**
 The orchestrator's claim protocol: any number of workers compete for task rows
 through one compare-and-set.  A step of the machine is what one worker does up
 to and including one store call or one agent call; every interleaving of such
 steps is a run.  Claim rows are changed by nothing but the compare-and-set.
 */
module Claims {
  import opened Common

  datatype Claim = Unclaimed | Claimed | Running | RetryQueued | Released

  /** Where a worker stands inside `dispatch_one`. */
  datatype Phase =
    | Idle
    | Holding(task: string)              // the first compare-and-set was won
    | SpawnFailed(task: string)
    | Launched(task: string)             // the child exists, the row still says Claimed
    | Awaiting(task: string)
    | Exited(task: string, clean: bool)

  datatype Move = Move(task: string, from: Claim, to: Claim)

  datatype System = System(
    claims: map<string, Claim>,
    phases: map<nat, Phase>,
    spawns: map<string, nat>,   // calls of `spawn_agent` per task
    log: seq<Move>,             // successful compare-and-sets
    strictFailures: nat)

  datatype Step =
    | AddTask(task: string)
    | TryClaim(worker: nat, task: string)
    | ReturnDryRun(worker: nat)
    | Spawn(worker: nat, ok: bool)
    | GiveUp(worker: nat)
    | MarkRunning(worker: nat)
    | AgentDone(worker: nat, clean: bool)
    | Settle(worker: nat)
    | Abandon(worker: nat)     // a lookup, comment or store error leaves `dispatch_one` early

  const INIT := System(map[], map[], map[], [], 0)

  function PhaseOf(phases: map<nat, Phase>, w: nat): Phase {
    if w in phases then phases[w] else Idle
  }

  function Spawns(spawns: map<string, nat>, t: string): nat {
    if t in spawns then spawns[t] else 0
  }

  predicate CanMove(claims: map<string, Claim>, t: string, from: Claim) {
    t in claims && claims[t] == from
  }

  /** The compare-and-set followed by the worker's own move to `won` or `lost`. */
  function Cas(s: System, w: nat, t: string, from: Claim, to: Claim, won: Phase, lost: Phase): System {
    if CanMove(s.claims, t, from)
    then s.(claims := s.claims[t := to], log := s.log + [Move(t, from, to)], phases := s.phases[w := won])
    else s.(phases := s.phases[w := lost])
  }

  /** `strict_transition`: the same, but losing is counted as a failure and ends the dispatch. */
  function Strict(s: System, w: nat, t: string, from: Claim, to: Claim, won: Phase): System {
    var r := Cas(s, w, t, from, to, won, Idle);
    if CanMove(s.claims, t, from) then r else r.(strictFailures := s.strictFailures + 1)
  }

  function Next(s: System, step: Step): System {
    match step
    case AddTask(t) => if t in s.claims then s else s.(claims := s.claims[t := Unclaimed])
    case TryClaim(w, t) =>
      if PhaseOf(s.phases, w).Idle? then Cas(s, w, t, Unclaimed, Claimed, Holding(t), Idle) else s
    case ReturnDryRun(w) =>
      var p := PhaseOf(s.phases, w);
      if p.Holding? then Strict(s, w, p.task, Claimed, Unclaimed, Idle) else s
    case Spawn(w, ok) =>
      var p := PhaseOf(s.phases, w);
      if p.Holding?
      then s.(spawns := s.spawns[p.task := Spawns(s.spawns, p.task) + 1],
              phases := s.phases[w := if ok then Launched(p.task) else SpawnFailed(p.task)])
      else s
    case GiveUp(w) =>
      var p := PhaseOf(s.phases, w);
      if p.SpawnFailed? then Strict(s, w, p.task, Claimed, Released, Idle) else s
    case MarkRunning(w) =>
      var p := PhaseOf(s.phases, w);
      if p.Launched? then Strict(s, w, p.task, Claimed, Running, Awaiting(p.task)) else s
    case AgentDone(w, clean) =>
      var p := PhaseOf(s.phases, w);
      if p.Awaiting? then s.(phases := s.phases[w := Exited(p.task, clean)]) else s
    case Settle(w) =>
      var p := PhaseOf(s.phases, w);
      if p.Exited?
      then Strict(s, w, p.task, Running, if p.clean then Released else RetryQueued, Idle)
      else s
    case Abandon(w) => s.(phases := s.phases[w := Idle])
  }

  function After(s: System, steps: seq<Step>): System
    decreases |steps|
  {
    if steps == [] then s else After(Next(s, steps[0]), steps[1..])
  }

  // --- Invariant ---

  predicate Holds(phases: map<nat, Phase>, w: nat, t: string) {
    !PhaseOf(phases, w).Idle? && PhaseOf(phases, w).task == t
  }

  predicate Emitted(from: Claim, to: Claim) {
    match from
    case Unclaimed => to.Claimed?
    case Claimed => to.Unclaimed? || to.Running? || to.Released?
    case Running => to.Released? || to.RetryQueued?
    case _ => false
  }

  /** The claim a task has after the logged moves; tasks start Unclaimed. */
  function Replay(log: seq<Move>, t: string): Claim {
    if log == [] then Unclaimed
    else if log[|log| - 1].task == t then log[|log| - 1].to
    else Replay(log[..|log| - 1], t)
  }

  /** Every move starts where its task stood and follows an emitted edge. */
  ghost predicate LegalLog(log: seq<Move>) {
    forall i :: 0 <= i < |log| ==> Emitted(log[i].from, log[i].to) && Replay(log[..i], log[i].task) == log[i].from
  }

  ghost predicate Inv(s: System) {
    && (forall w: nat, t :: Holds(s.phases, w, t) ==>
          t in s.claims &&
          s.claims[t] == if PhaseOf(s.phases, w).Awaiting? || PhaseOf(s.phases, w).Exited? then Running else Claimed)
    && (forall v: nat, w: nat, t :: Holds(s.phases, v, t) && Holds(s.phases, w, t) ==> v == w)
    && s.strictFailures == 0
    && (forall t :: Spawns(s.spawns, t) <= 1)
    && (forall t :: Spawns(s.spawns, t) == 1 ==> t in s.claims && !s.claims[t].Unclaimed?)
    && (forall w: nat :: PhaseOf(s.phases, w).Holding? ==> Spawns(s.spawns, PhaseOf(s.phases, w).task) == 0)
    && LegalLog(s.log)
    && (forall t :: t in s.claims ==> s.claims[t] == Replay(s.log, t))
    && (forall t :: t !in s.claims ==> Replay(s.log, t) == Unclaimed)
  }

  lemma LegalLogAppend(log: seq<Move>, m: Move)
    requires LegalLog(log) && Emitted(m.from, m.to) && Replay(log, m.task) == m.from
    ensures LegalLog(log + [m])
    ensures forall t :: Replay(log + [m], t) == if t == m.task then m.to else Replay(log, t)
  {
    assert (log + [m])[..|log|] == log;
    forall i | 0 <= i < |log|
      ensures (log + [m])[..i] == log[..i]
    {
    }
  }

  lemma WinKeepsInv(s: System, w: nat, t: string)
    requires Inv(s) && PhaseOf(s.phases, w).Idle? && CanMove(s.claims, t, Unclaimed)
    ensures Inv(Next(s, TryClaim(w, t)))
  {
    LegalLogAppend(s.log, Move(t, Unclaimed, Claimed));
    var r := Next(s, TryClaim(w, t));
    assert PhaseOf(r.phases, w) == Holding(t);
    assert forall v: nat :: v != w ==> PhaseOf(r.phases, v) == PhaseOf(s.phases, v);
    assert forall v: nat :: !Holds(s.phases, v, t);
    assert forall v: nat, u :: Holds(r.phases, v, u) ==> (v == w && u == t) || Holds(s.phases, v, u);
  }

  lemma StrictKeepsInv(s: System, w: nat, t: string, from: Claim, to: Claim, won: Phase)
    requires Inv(s) && Holds(s.phases, w, t) && s.claims[t] == from && Emitted(from, to)
    requires won == Idle || (won == Awaiting(t) && to == Running)
    requires to.Unclaimed? ==> Spawns(s.spawns, t) == 0
    ensures Inv(Strict(s, w, t, from, to, won))
  {
    LegalLogAppend(s.log, Move(t, from, to));
    var r := Strict(s, w, t, from, to, won);
    assert PhaseOf(r.phases, w) == won && forall v: nat :: v != w ==> PhaseOf(r.phases, v) == PhaseOf(s.phases, v);
    assert forall v: nat, u :: Holds(r.phases, v, u) ==> Holds(s.phases, v, u);
  }

  lemma LocalMoveKeepsInv(s: System, w: nat, p: Phase)
    requires Inv(s)
    requires p.Idle? || (PhaseOf(s.phases, w).Awaiting? && p.Exited? && p.task == PhaseOf(s.phases, w).task)
    ensures Inv(s.(phases := s.phases[w := p]))
  {
    var r := s.(phases := s.phases[w := p]);
    assert PhaseOf(r.phases, w) == p && forall v: nat :: v != w ==> PhaseOf(r.phases, v) == PhaseOf(s.phases, v);
    assert forall v: nat, t :: Holds(r.phases, v, t) ==> Holds(s.phases, v, t);
  }

  lemma SpawnKeepsHolders(s: System, w: nat, ok: bool)
    requires PhaseOf(s.phases, w).Holding?
    ensures var r := Next(s, Spawn(w, ok));
            && (forall v: nat, u :: Holds(r.phases, v, u) <==> Holds(s.phases, v, u))
            && (forall v: nat :: v != w ==> PhaseOf(r.phases, v) == PhaseOf(s.phases, v))
            && (forall u :: Spawns(r.spawns, u) ==
                  Spawns(s.spawns, u) + if u == PhaseOf(s.phases, w).task then 1 else 0)
  {
    var r := Next(s, Spawn(w, ok));
    forall v: nat
      ensures v != w ==> PhaseOf(r.phases, v) == PhaseOf(s.phases, v)
      ensures forall u :: Holds(r.phases, v, u) <==> Holds(s.phases, v, u)
    {
    }
  }

  lemma SpawnKeepsInv(s: System, w: nat, ok: bool)
    requires Inv(s) && PhaseOf(s.phases, w).Holding?
    ensures Inv(Next(s, Spawn(w, ok)))
  {
    assert Holds(s.phases, w, PhaseOf(s.phases, w).task);
    SpawnKeepsHolders(s, w, ok);
  }

  lemma NextKeepsInv(s: System, step: Step)
    requires Inv(s)
    ensures Inv(Next(s, step))
  {
    match step
    case AddTask(t) =>
      assert forall w: nat, u :: Holds(Next(s, step).phases, w, u) ==> Holds(s.phases, w, u);
    case TryClaim(w, t) =>
      if PhaseOf(s.phases, w).Idle? {
        if CanMove(s.claims, t, Unclaimed) { WinKeepsInv(s, w, t); } else { LocalMoveKeepsInv(s, w, Idle); }
      }
    case ReturnDryRun(w) =>
      var p := PhaseOf(s.phases, w);
      if p.Holding? { assert Holds(s.phases, w, p.task); StrictKeepsInv(s, w, p.task, Claimed, Unclaimed, Idle); }
    case Spawn(w, ok) =>
      if PhaseOf(s.phases, w).Holding? { SpawnKeepsInv(s, w, ok); }
    case GiveUp(w) =>
      var p := PhaseOf(s.phases, w);
      if p.SpawnFailed? { assert Holds(s.phases, w, p.task); StrictKeepsInv(s, w, p.task, Claimed, Released, Idle); }
    case MarkRunning(w) =>
      var p := PhaseOf(s.phases, w);
      if p.Launched? {
        assert Holds(s.phases, w, p.task);
        StrictKeepsInv(s, w, p.task, Claimed, Running, Awaiting(p.task));
      }
    case AgentDone(w, clean) =>
      if PhaseOf(s.phases, w).Awaiting? { LocalMoveKeepsInv(s, w, Exited(PhaseOf(s.phases, w).task, clean)); }
    case Settle(w) =>
      var p := PhaseOf(s.phases, w);
      if p.Exited? {
        assert Holds(s.phases, w, p.task);
        StrictKeepsInv(s, w, p.task, Running, if p.clean then Released else RetryQueued, Idle);
      }
    case Abandon(w) => LocalMoveKeepsInv(s, w, Idle);
  }

  lemma {:induction false} RunKeepsInv(s: System, steps: seq<Step>)
    requires Inv(s)
    ensures Inv(After(s, steps))
    decreases |steps|
  {
    if steps != [] {
      NextKeepsInv(s, steps[0]);
      RunKeepsInv(Next(s, steps[0]), steps[1..]);
    }
  }

  // --- What every run guarantees ---

  lemma NoDoubleDispatch(steps: seq<Step>)
    ensures var s := After(INIT, steps);
            && (forall v: nat, w: nat, t :: Holds(s.phases, v, t) && Holds(s.phases, w, t) ==> v == w)
            && (forall t :: Spawns(s.spawns, t) <= 1)
            && s.strictFailures == 0
  {
    RunKeepsInv(INIT, steps);
  }

  lemma ClaimTraceIsLegal(steps: seq<Step>)
    ensures var s := After(INIT, steps);
            LegalLog(s.log) && forall t :: t in s.claims ==> s.claims[t] == Replay(s.log, t)
  {
    RunKeepsInv(INIT, steps);
  }

  /** A row nobody holds and that is not Unclaimed is out of the protocol's reach for good. */
  ghost predicate Settled(s: System, t: string) {
    t in s.claims && !s.claims[t].Unclaimed? && forall w: nat :: !Holds(s.phases, w, t)
  }

  lemma SettledStep(s: System, step: Step, t: string)
    requires Settled(s, t)
    ensures var r := Next(s, step);
            Settled(r, t) && r.claims[t] == s.claims[t] && Spawns(r.spawns, t) == Spawns(s.spawns, t)
  {
    var r := Next(s, step);
    if !step.AddTask? {
      var w := step.worker;
      assert !Holds(s.phases, w, t);
      assert forall v: nat :: v != w ==> PhaseOf(r.phases, v) == PhaseOf(s.phases, v);
      forall v: nat
        ensures !Holds(r.phases, v, t)
      {
        assert !Holds(s.phases, v, t);
      }
    }
  }

  lemma {:induction false} SettledForever(s: System, steps: seq<Step>, t: string)
    requires Settled(s, t)
    ensures var r := After(s, steps);
            Settled(r, t) && r.claims[t] == s.claims[t] && Spawns(r.spawns, t) == Spawns(s.spawns, t)
    decreases |steps|
  {
    if steps != [] {
      SettledStep(s, steps[0], t);
      SettledForever(Next(s, steps[0]), steps[1..], t);
    }
  }

  /** A row that says a worker has it, although none does. */
  ghost predicate Stranded(s: System, t: string) {
    t in s.claims && (s.claims[t].Claimed? || s.claims[t].Running?) && forall w: nat :: !Holds(s.phases, w, t)
  }

  /** The step is the task's holder leaving `dispatch_one` early. */
  predicate Abandons(s: System, step: Step, t: string) {
    step.Abandon? && Holds(s.phases, step.worker, t)
  }

  lemma AbandonStrands(s: System, w: nat, t: string)
    requires Inv(s) && Holds(s.phases, w, t)
    ensures Stranded(Next(s, Abandon(w)), t)
  {
    var r := Next(s, Abandon(w));
    forall v: nat
      ensures !Holds(r.phases, v, t)
    {
      assert v != w ==> PhaseOf(r.phases, v) == PhaseOf(s.phases, v);
      assert Holds(s.phases, v, t) ==> v == w;
    }
  }

  lemma HolderRow(steps: seq<Step>, w: nat)
    requires !PhaseOf(After(INIT, steps).phases, w).Idle?
    ensures var s := After(INIT, steps);
            var t := PhaseOf(s.phases, w).task;
            t in s.claims && (s.claims[t].Claimed? || s.claims[t].Running?) && Stranded(Next(s, Abandon(w)), t)
  {
    RunKeepsInv(INIT, steps);
    var s := After(INIT, steps);
    assert Holds(s.phases, w, PhaseOf(s.phases, w).task);
    AbandonStrands(s, w, PhaseOf(s.phases, w).task);
  }

  /** A worker that leaves `dispatch_one` early strands the row: its claim never changes again. */
  lemma AbandonedTaskIsStranded(before: seq<Step>, w: nat, after: seq<Step>)
    requires !PhaseOf(After(INIT, before).phases, w).Idle?
    ensures var s := After(INIT, before);
            var t := PhaseOf(s.phases, w).task;
            var r := After(Next(s, Abandon(w)), after);
            t in s.claims && t in r.claims && r.claims[t] == s.claims[t] &&
              (s.claims[t].Claimed? || s.claims[t].Running?)
  {
    var s := After(INIT, before);
    HolderRow(before, w);
    SettledForever(Next(s, Abandon(w)), after, PhaseOf(s.phases, w).task);
  }

  lemma OthersKeepPhase(s: System, step: Step, w: nat)
    requires step.AddTask? || step.worker != w
    ensures PhaseOf(Next(s, step).phases, w) == PhaseOf(s.phases, w)
  {
  }

  /** A holder's own step keeps the row, unless it ends the claim or abandons it. */
  lemma OwnStepHolds(s: System, step: Step, t: string)
    requires Inv(s) && !step.AddTask? && !step.Abandon? && Holds(s.phases, step.worker, t)
    ensures var r := Next(s, step);
            Holds(r.phases, step.worker, t) || (t in r.claims && !r.claims[t].Claimed? && !r.claims[t].Running?)
  {
  }

  lemma HeldStaysHeld(s: System, step: Step, w: nat, t: string)
    requires Inv(s) && Holds(s.phases, w, t) && !Abandons(s, step, t)
    ensures !Stranded(Next(s, step), t)
  {
    if step.AddTask? || step.worker != w {
      OthersKeepPhase(s, step, w);
      assert Holds(Next(s, step).phases, w, t);
    } else {
      OwnStepHolds(s, step, t);
    }
  }

  /** A row that was neither held nor claimed is held once it is. */
  lemma NewClaimIsHeld(s: System, step: Step, t: string)
    requires Inv(s) && (forall w: nat :: !Holds(s.phases, w, t)) && !Stranded(s, t)
    ensures !Stranded(Next(s, step), t)
  {
    var r := Next(s, step);
    if step.AddTask? {
    } else if step.TryClaim? && step.task == t && PhaseOf(s.phases, step.worker).Idle? &&
      CanMove(s.claims, t, Unclaimed) {
      assert Holds(r.phases, step.worker, t);
    } else {
      assert !Holds(s.phases, step.worker, t);
      assert t in r.claims <==> t in s.claims;
      assert t in s.claims ==> r.claims[t] == s.claims[t];
    }
  }

  lemma StrandedStep(s: System, step: Step, t: string)
    requires Inv(s)
    ensures Stranded(Next(s, step), t) <==> Stranded(s, t) || Abandons(s, step, t)
  {
    if Abandons(s, step, t) {
      AbandonStrands(s, step.worker, t);
    } else if Stranded(s, t) {
      SettledStep(s, step, t);
    } else if w: nat :| Holds(s.phases, w, t) {
      HeldStaysHeld(s, step, w, t);
    } else {
      NewClaimIsHeld(s, step, t);
    }
  }

  /** Somewhere in the run a holder of the task abandons it. */
  ghost predicate WasAbandoned(s: System, steps: seq<Step>, t: string)
    decreases |steps|
  {
    steps != [] && (Abandons(s, steps[0], t) || WasAbandoned(Next(s, steps[0]), steps[1..], t))
  }

  lemma {:induction false} StrandedIffFrom(s: System, steps: seq<Step>, t: string)
    requires Inv(s)
    ensures Stranded(After(s, steps), t) <==> Stranded(s, t) || WasAbandoned(s, steps, t)
    decreases |steps|
  {
    if steps != [] {
      NextKeepsInv(s, steps[0]);
      StrandedStep(s, steps[0], t);
      StrandedIffFrom(Next(s, steps[0]), steps[1..], t);
    }
  }

  /**
   A row ends a run claimed or running without a worker exactly when one of its holders abandoned it,
   so in a run without an abandoned dispatch every claimed or running row is being worked on.
   */
  lemma StrandedIffAbandoned(steps: seq<Step>, t: string)
    ensures Stranded(After(INIT, steps), t) <==> WasAbandoned(INIT, steps, t)
    ensures (forall i :: 0 <= i < |steps| ==> !steps[i].Abandon?) ==> !Stranded(After(INIT, steps), t)
  {
    StrandedIffFrom(INIT, steps, t);
    if forall i :: 0 <= i < |steps| ==> !steps[i].Abandon? {
      NobodyAbandons(INIT, steps, t);
    }
  }

  lemma {:induction false} NobodyAbandons(s: System, steps: seq<Step>, t: string)
    requires forall i :: 0 <= i < |steps| ==> !steps[i].Abandon?
    ensures !WasAbandoned(s, steps, t)
    decreases |steps|
  {
    if steps != [] {
      assert !steps[0].Abandon?;
      NobodyAbandons(Next(s, steps[0]), steps[1..], t);
    }
  }

  // --- The transition table the store documents ---

  datatype SpecClaim = SUnclaimed | SClaimed | SRunning | SPaused | SRetryQueued | SReleased

  datatype Trigger =
    | DispatchEligible | AgentLaunched | DispatchFailed | GuardrailSuspend | HumanPause | HumanResume
    | AgentExitNormal | AgentExitAbnormal | RetryDispatch | NoLongerEligible | MaxRetries
    | ReconciliationTerminal | ReEligibleNextTick

  function SpecStep(c: SpecClaim, t: Trigger): Option<SpecClaim> {
    match (c, t)
    case (SUnclaimed, DispatchEligible) => Some(SClaimed)
    case (SClaimed, AgentLaunched) => Some(SRunning)
    case (SClaimed, DispatchFailed) => Some(SReleased)
    case (SRunning, GuardrailSuspend) => Some(SPaused)
    case (SRunning, HumanPause) => Some(SPaused)
    case (SRunning, AgentExitNormal) => Some(SRetryQueued)
    case (SRunning, AgentExitAbnormal) => Some(SRetryQueued)
    case (SRunning, ReconciliationTerminal) => Some(SReleased)
    case (SPaused, HumanResume) => Some(SRunning)
    case (SPaused, ReconciliationTerminal) => Some(SReleased)
    case (SRetryQueued, RetryDispatch) => Some(SRunning)
    case (SRetryQueued, NoLongerEligible) => Some(SReleased)
    case (SRetryQueued, MaxRetries) => Some(SReleased)
    case (SReleased, ReEligibleNextTick) => Some(SUnclaimed)
    case _ => None
  }

  function ToSpec(c: Claim): SpecClaim {
    match c
    case Unclaimed => SUnclaimed
    case Claimed => SClaimed
    case Running => SRunning
    case RetryQueued => SRetryQueued
    case Released => SReleased
  }

  lemma SpecEdge(from: Claim, to: Claim)
    requires Emitted(from, to)
    ensures (exists t :: SpecStep(ToSpec(from), t) == Some(ToSpec(to))) <==> !(from.Claimed? && to.Unclaimed?)
  {
    var t := match to
      case Claimed => DispatchEligible
      case Running => AgentLaunched
      case Released => if from.Claimed? then DispatchFailed else ReconciliationTerminal
      case _ => AgentExitAbnormal;
    if !to.Unclaimed? {
      assert SpecStep(ToSpec(from), t) == Some(ToSpec(to));
    } else {
      forall t
        ensures SpecStep(SClaimed, t) != Some(SUnclaimed)
      {
        assert t.AgentLaunched? || t.DispatchFailed? || SpecStep(SClaimed, t) == None;
      }
    }
  }

  /** Of the moves in any run, exactly the dry-run returns have no trigger at all in the documented table. */
  lemma OnlyDryRunHasNoTrigger(steps: seq<Step>, i: nat)
    requires i < |After(INIT, steps).log|
    ensures var m := After(INIT, steps).log[i];
            (exists t :: SpecStep(ToSpec(m.from), t) == Some(ToSpec(m.to))) <==> !(m.from.Claimed? && m.to.Unclaimed?)
  {
    RunKeepsInv(INIT, steps);
    var m := After(INIT, steps).log[i];
    SpecEdge(m.from, m.to);
  }

  /** The trigger the code means by a step; a dry-run return has none. */
  function TriggerOf(s: System, step: Step): Option<Trigger> {
    match step
    case TryClaim(_, _) => Some(DispatchEligible)
    case GiveUp(_) => Some(DispatchFailed)
    case MarkRunning(_) => Some(AgentLaunched)
    case Settle(w) =>
      var p := PhaseOf(s.phases, w);
      Some(if p.Exited? && p.clean then AgentExitNormal else AgentExitAbnormal)
    case _ => None
  }

  /** The move is what the documented table says about the trigger of the step that made it. */
  predicate AsDocumented(trigger: Option<Trigger>, m: Move) {
    trigger.Some? && SpecStep(ToSpec(m.from), trigger.value) == Some(ToSpec(m.to))
  }

  predicate IsDryRunReturn(m: Move) {
    m.from.Claimed? && m.to.Unclaimed?
  }

  predicate IsCleanRelease(m: Move) {
    m.from.Running? && m.to.Released?
  }

  /**
   In every run, a step's move is the one the table gives for its trigger exactly when it is neither a
   dry-run return nor the release after a clean exit.
   */
  lemma AsDocumentedIff(steps: seq<Step>, step: Step)
    requires |Next(After(INIT, steps), step).log| > |After(INIT, steps).log|
    ensures var s := After(INIT, steps);
            var r := Next(s, step);
            var m := r.log[|s.log|];
            && r.log == s.log + [m]
            && (AsDocumented(TriggerOf(s, step), m) <==> !IsDryRunReturn(m) && !IsCleanRelease(m))
            && (IsDryRunReturn(m) <==> step.ReturnDryRun?)
            && (IsCleanRelease(m) <==> step.Settle? && TriggerOf(s, step) == Some(AgentExitNormal))
  {
  }

  /** The table lets a running task be released by reconciliation only; a normal exit queues a retry. */
  lemma ReleaseFromRunning(t: Trigger)
    ensures SpecStep(SRunning, t) == Some(SReleased) <==> t == ReconciliationTerminal
    ensures SpecStep(SRunning, AgentExitNormal) == Some(SRetryQueued)
    ensures SpecStep(SClaimed, t) != Some(SUnclaimed)
  {
    assert t.GuardrailSuspend? || t.HumanPause? || t.AgentExitNormal? || t.AgentExitAbnormal? ||
      t.ReconciliationTerminal? || SpecStep(SRunning, t) == None;
    assert t.AgentLaunched? || t.DispatchFailed? || SpecStep(SClaimed, t) == None;
  }

  /** Both deviations happen: a dry run of any task ... */
  lemma DryRunReturnHappens(t: string, w: nat)
    ensures After(INIT, [AddTask(t), TryClaim(w, t), ReturnDryRun(w)]).log ==
            [Move(t, Unclaimed, Claimed), Move(t, Claimed, Unclaimed)]
  {
    var steps := [AddTask(t), TryClaim(w, t), ReturnDryRun(w)];
    var s2 := Next(Next(INIT, AddTask(t)), TryClaim(w, t));
    assert steps[1..] == [TryClaim(w, t), ReturnDryRun(w)] && steps[1..][1..] == [ReturnDryRun(w)];
    assert After(INIT, steps) == After(s2, [ReturnDryRun(w)]) == Next(s2, ReturnDryRun(w));
  }

  function Dispatched(t: string, w: nat): System {
    Next(Next(Next(Next(INIT, AddTask(t)), TryClaim(w, t)), Spawn(w, true)), MarkRunning(w))
  }

  /** ... and a dispatch whose agent exits cleanly. */
  lemma CleanReleaseHappens(t: string, w: nat) returns (steps: seq<Step>)
    ensures After(INIT, steps).log ==
            [Move(t, Unclaimed, Claimed), Move(t, Claimed, Running), Move(t, Running, Released)]
  {
    steps := [AddTask(t), TryClaim(w, t)];
    assert [AddTask(t)] + [TryClaim(w, t)] == steps && [] + [AddTask(t)] == [AddTask(t)];
    AfterSnoc(INIT, [], AddTask(t));
    AfterSnoc(INIT, [AddTask(t)], TryClaim(w, t));
    AfterSnoc(INIT, steps, Spawn(w, true));
    steps := steps + [Spawn(w, true)];
    AfterSnoc(INIT, steps, MarkRunning(w));
    steps := steps + [MarkRunning(w)];
    assert After(INIT, steps) == Dispatched(t, w);
    RunningRow(t, w);
    var s := Dispatched(t, w);
    AfterSnoc(INIT, steps, AgentDone(w, true));
    steps := steps + [AgentDone(w, true)];
    AfterSnoc(INIT, steps, Settle(w));
    steps := steps + [Settle(w)];
    ReleaseRow(s, t, w);
  }

  lemma ReleaseRow(s: System, t: string, w: nat)
    requires CanMove(s.claims, t, Running) && PhaseOf(s.phases, w) == Awaiting(t)
    ensures Next(Next(s, AgentDone(w, true)), Settle(w)).log == s.log + [Move(t, Running, Released)]
  {
  }

  lemma RunningRow(t: string, w: nat)
    ensures var s := Dispatched(t, w);
            && s.claims == map[t := Running] && PhaseOf(s.phases, w) == Awaiting(t)
            && s.log == [Move(t, Unclaimed, Claimed), Move(t, Claimed, Running)]
  {
    assert map[t := Unclaimed][t := Claimed][t := Running] == map[t := Running];
  }

  // --- The worker itself ---

  /** Everything the outside world decides during one dispatch. */
  datatype Environment = Environment(issueFound: bool, spawnOk: bool, commentPosted: bool, cleanExit: bool)

  datatype Outcome =
    | ReleasedOutcome(task: string)
    | RetriedOutcome(task: string)
    | LostRace(task: string)
    | DryRun(task: string)

  function OutcomeOf(t: string, dryRun: bool, env: Environment): Result<Outcome, string> {
    if !env.issueFound then Err("issue missing")
    else if dryRun then Ok(DryRun(t))
    else if !env.commentPosted then Err("comment failed")
    else if env.spawnOk && env.cleanExit then Ok(ReleasedOutcome(t))
    else Ok(RetriedOutcome(t))
  }

  /** The steps are this worker's, and spawn and exit went as the environment says. */
  ghost predicate Tells(steps: seq<Step>, w: nat, env: Environment) {
    forall i :: 0 <= i < |steps| ==>
      && !steps[i].AddTask? && steps[i].worker == w
      && (steps[i].Spawn? ==> steps[i].ok == env.spawnOk)
      && (steps[i].AgentDone? ==> steps[i].clean == env.cleanExit)
  }

  /** The steps end with the claim being settled after the agent's exit. */
  predicate SettledAfter(steps: seq<Step>, w: nat, clean: bool) {
    |steps| >= 2 && steps[|steps| - 1] == Settle(w) && steps[|steps| - 2] == AgentDone(w, clean)
  }

  predicate EndsWith(steps: seq<Step>, step: Step) {
    steps != [] && steps[|steps| - 1] == step
  }

  /** What a dispatch that won its row reports, and the claim it leaves there, told by its own steps. */
  predicate Reports(r: Result<Outcome, string>, claim: Claim, steps: seq<Step>, t: string, w: nat) {
    && (r.Err? <==> EndsWith(steps, Abandon(w)))
    && (r == Ok(DryRun(t)) <==> EndsWith(steps, ReturnDryRun(w)))
    && (r == Ok(ReleasedOutcome(t)) <==> SettledAfter(steps, w, true))
    && (r == Ok(RetriedOutcome(t)) <==> SettledAfter(steps, w, false) || EndsWith(steps, GiveUp(w)))
    && (claim == RetryQueued <==> SettledAfter(steps, w, false))
    && (claim == Released <==> SettledAfter(steps, w, true) || EndsWith(steps, GiveUp(w)))
    && (claim == Unclaimed <==> EndsWith(steps, ReturnDryRun(w)))
  }

  /** The steps of a dispatch from the agent's exit on ... */
  function AwaitSteps(w: nat, env: Environment): seq<Step> {
    [AgentDone(w, env.cleanExit), if env.commentPosted then Settle(w) else Abandon(w)]
  }

  /** ... those after its prompt is built ... */
  function AgentSteps(w: nat, env: Environment): seq<Step> {
    [Spawn(w, env.spawnOk)] +
    (if env.spawnOk then [MarkRunning(w)] + AwaitSteps(w, env)
     else [if env.commentPosted then GiveUp(w) else Abandon(w)])
  }

  /** ... and of a whole one that wins its row. */
  function WinningSteps(t: string, w: nat, dryRun: bool, env: Environment): seq<Step> {
    [TryClaim(w, t)] +
    (if !env.issueFound then [Abandon(w)] else if dryRun then [ReturnDryRun(w)] else AgentSteps(w, env))
  }

  /** Settling writes `Released` after a clean exit and `RetryQueued` after any other, under that exit's trigger. */
  lemma SettlesAsExited(s: System, t: string, w: nat, clean: bool)
    requires CanMove(s.claims, t, Running) && PhaseOf(s.phases, w) == Awaiting(t)
    ensures var exited := Next(s, AgentDone(w, clean));
            && Next(exited, Settle(w)).claims == s.claims[t := if clean then Released else RetryQueued]
            && TriggerOf(exited, Settle(w)) == Some(if clean then AgentExitNormal else AgentExitAbnormal)
  {
  }

  /**
   From an unclaimed row on: the claim, its return by a dry run, and the launch, after which only a started
   agent's row can be marked as running and only a failed launch can be given up.
   */
  lemma LaunchesAsSpawned(s: System, t: string, w: nat, ok: bool)
    requires CanMove(s.claims, t, Unclaimed) && PhaseOf(s.phases, w).Idle?
    ensures var claimed := Next(s, TryClaim(w, t));
            var launched := Next(claimed, Spawn(w, ok));
            && claimed.claims == s.claims[t := Claimed] && claimed.spawns == s.spawns
            && Next(claimed, ReturnDryRun(w)).claims == s.claims[t := Unclaimed]
            && launched.claims == claimed.claims && Spawns(launched.spawns, t) == Spawns(s.spawns, t) + 1
            && (if ok then
                  Next(launched, MarkRunning(w)).claims == s.claims[t := Running] &&
                  Next(launched, GiveUp(w)) == launched
                else
                  Next(launched, GiveUp(w)).claims == s.claims[t := Released] &&
                  Next(launched, MarkRunning(w)) == launched)
  {
    assert s.claims[t := Claimed][t := Unclaimed] == s.claims[t := Unclaimed];
    assert s.claims[t := Claimed][t := Running] == s.claims[t := Running];
    assert s.claims[t := Claimed][t := Released] == s.claims[t := Released];
  }

  /** The claim a won task ends with when nobody else touches its row. */
  function FinalClaim(dryRun: bool, env: Environment): Claim {
    if !env.issueFound then Claimed
    else if dryRun then Unclaimed
    else if !env.spawnOk then (if env.commentPosted then Released else Claimed)
    else if !env.commentPosted then Running
    else if env.cleanExit then Released
    else RetryQueued
  }

  /**
   Outcome and final claim, told by the steps: how they went is how the environment decided, and it
   alone decides which of them is the last.
   */
  lemma ReportsItsSteps(t: string, w: nat, dryRun: bool, env: Environment)
    ensures var steps := WinningSteps(t, w, dryRun, env);
            && Tells(steps, w, env)
            && Reports(OutcomeOf(t, dryRun, env), FinalClaim(dryRun, env), steps, t, w)
            && (EndsWith(steps, Abandon(w)) <==> !env.issueFound || (!dryRun && !env.commentPosted))
            && (EndsWith(steps, ReturnDryRun(w)) <==> env.issueFound && dryRun)
            && (EndsWith(steps, GiveUp(w)) <==> env.issueFound && !dryRun && env.commentPosted && !env.spawnOk)
            && (env.issueFound && !dryRun && env.spawnOk && env.commentPosted ==>
                  SettledAfter(steps, w, env.cleanExit))
  {
    var steps := WinningSteps(t, w, dryRun, env);
    if !env.issueFound {
      assert steps == [TryClaim(w, t), Abandon(w)];
    } else if dryRun {
      assert steps == [TryClaim(w, t), ReturnDryRun(w)];
    } else if !env.spawnOk {
      assert steps == [TryClaim(w, t), Spawn(w, false), if env.commentPosted then GiveUp(w) else Abandon(w)];
    } else {
      assert steps == [TryClaim(w, t), Spawn(w, true), MarkRunning(w), AgentDone(w, env.cleanExit),
                       if env.commentPosted then Settle(w) else Abandon(w)];
    }
  }

  lemma {:induction false} AfterSnoc(s: System, steps: seq<Step>, step: Step)
    ensures After(s, steps + [step]) == Next(After(s, steps), step)
    decreases |steps|
  {
    if steps != [] {
      assert (steps + [step])[1..] == steps[1..] + [step];
      AfterSnoc(Next(s, steps[0]), steps[1..], step);
    }
  }

  lemma {:induction false} AfterConcat(s: System, first: seq<Step>, second: seq<Step>)
    ensures After(s, first + second) == After(After(s, first), second)
    decreases |first|
  {
    if first == [] {
      assert first + second == second;
    } else {
      assert (first + second)[1..] == first[1..] + second;
      AfterConcat(Next(s, first[0]), first[1..], second);
    }
  }

  /** One uninterrupted dispatch, seen from the rows. */
  function Dispatch(claims: map<string, Claim>, dryRun: bool, t: string, env: Environment)
    : (map<string, Claim>, Result<Outcome, string>)
  {
    if CanMove(claims, t, Unclaimed)
    then (claims[t := FinalClaim(dryRun, env)], OutcomeOf(t, dryRun, env))
    else (claims, Ok(LostRace(t)))
  }

  /** Dispatches in order, up to and including the first that fails. */
  function Drain(claims: map<string, Claim>, dryRun: bool, tasks: seq<string>, envs: seq<Environment>)
    : (map<string, Claim>, Result<seq<Outcome>, string>)
    requires |tasks| == |envs|
  {
    if tasks == [] then (claims, Ok([])) else
    var n := |tasks| - 1;
    var (before, sofar) := Drain(claims, dryRun, tasks[..n], envs[..n]);
    if sofar.Err? then (before, sofar) else
    var (after, outcome) := Dispatch(before, dryRun, tasks[n], envs[n]);
    (after, if outcome.Err? then Err(outcome.error) else Ok(sofar.value + [outcome.value]))
  }

  function RowOf(claims: map<string, Claim>, t: string): Option<Claim> {
    if t in claims then Some(claims[t]) else None
  }

  lemma {:induction false} DrainStops(claims: map<string, Claim>, dryRun: bool, tasks: seq<string>,
                                      envs: seq<Environment>, k: nat)
    requires |tasks| == |envs| && k <= |tasks| && Drain(claims, dryRun, tasks[..k], envs[..k]).1.Err?
    ensures Drain(claims, dryRun, tasks, envs) == Drain(claims, dryRun, tasks[..k], envs[..k])
  {
    if k == |tasks| {
      assert tasks[..k] == tasks && envs[..k] == envs;
    } else {
      var n := |tasks| - 1;
      assert tasks[..n][..k] == tasks[..k] && envs[..n][..k] == envs[..k];
      DrainStops(claims, dryRun, tasks[..n], envs[..n], k);
    }
  }

  /**
   A pass without an error handles each listed task by its own row alone: the outcome and the final
   claim of every task are those of dispatching just that task, and other rows stay as they were.
   */
  lemma {:induction false} DrainEachTask(claims: map<string, Claim>, dryRun: bool, tasks: seq<string>,
                                         envs: seq<Environment>)
    requires |tasks| == |envs| && (forall i, j :: 0 <= i < j < |tasks| ==> tasks[i] != tasks[j])
    requires Drain(claims, dryRun, tasks, envs).1.Ok?
    ensures var (end, r) := Drain(claims, dryRun, tasks, envs);
            && |r.value| == |tasks|
            && (forall i :: 0 <= i < |tasks| ==> Ok(r.value[i]) == Dispatch(claims, dryRun, tasks[i], envs[i]).1)
            && (forall i :: 0 <= i < |tasks| ==>
                  RowOf(end, tasks[i]) == RowOf(Dispatch(claims, dryRun, tasks[i], envs[i]).0, tasks[i]))
            && (forall t :: t !in tasks ==> RowOf(end, t) == RowOf(claims, t))
  {
    if tasks != [] {
      var n := |tasks| - 1;
      DrainEachTask(claims, dryRun, tasks[..n], envs[..n]);
      assert tasks == tasks[..n] + [tasks[n]];
      assert RowOf(Drain(claims, dryRun, tasks[..n], envs[..n]).0, tasks[n]) == RowOf(claims, tasks[n]);
    }
  }

  class Store {
    var claims: map<string, Claim>
    var spawns: map<string, nat>
    var log: seq<Move>

    ghost function AsSystem(w: nat, phase: Phase): System
      reads this
    {
      System(claims, map[w := phase], spawns, log, 0)
    }

    method TryTransitionClaim(t: string, from: Claim, to: Claim) returns (ok: bool)
      modifies this
      ensures ok == CanMove(old(claims), t, from)
      ensures claims == if ok then old(claims)[t := to] else old(claims)
      ensures log == if ok then old(log) + [Move(t, from, to)] else old(log)
      ensures spawns == old(spawns)
    {
      ok := t in claims && claims[t] == from;
      if ok {
        claims, log := claims[t := to], log + [Move(t, from, to)];
      }
    }

    method SpawnAgent(t: string)
      modifies `spawns
      ensures spawns == old(spawns)[t := (if t in old(spawns) then old(spawns)[t] else 0) + 1]
    {
      spawns := spawns[t := (if t in spawns then spawns[t] else 0) + 1];
    }
  }

  class Worker {
    const id: nat
    const dryRun: bool
    const store: Store

    constructor (id: nat, dryRun: bool, store: Store)
      ensures this.id == id && this.dryRun == dryRun && this.store == store
    {
      this.id, this.dryRun, this.store := id, dryRun, store;
    }

    /** A compare-and-set that the caller expects to win; `step` is its step of the machine. */
    method StrictTransition(t: string, from: Claim, to: Claim, ghost step: Step, ghost phase: Phase,
                            ghost won: Phase) returns (ok: bool)
      requires CanMove(store.claims, t, from)
      requires Next(store.AsSystem(id, phase), step) == Strict(store.AsSystem(id, phase), id, t, from, to, won)
      modifies store
      ensures ok && store.claims == old(store.claims)[t := to]
      ensures store.AsSystem(id, won) == Next(old(store.AsSystem(id, phase)), step)
    {
      ok := store.TryTransitionClaim(t, from, to);
      assert map[id := phase][id := won] == map[id := won];
    }

    /** No child was started: post the comment and release the claim. */
    method GiveUpTask(t: string, env: Environment) returns (r: Result<Outcome, string>, ghost steps: seq<Step>)
      requires CanMove(store.claims, t, Claimed) && env.issueFound && !env.spawnOk
      modifies store
      ensures store.AsSystem(id, Idle) == After(old(store.AsSystem(id, SpawnFailed(t))), steps)
      ensures r == OutcomeOf(t, false, env) && store.claims == old(store.claims)[t := FinalClaim(false, env)]
      ensures steps == [if env.commentPosted then GiveUp(id) else Abandon(id)]
    {
      ghost var start := store.AsSystem(id, SpawnFailed(t));
      if !env.commentPosted {
        steps := [Abandon(id)];
        AfterSnoc(start, [], Abandon(id));
        assert map[id := SpawnFailed(t)][id := Idle] == map[id := Idle];
        return Err("comment failed"), steps;
      }
      var ok := StrictTransition(t, Claimed, Released, GiveUp(id), SpawnFailed(t), Idle);
      steps := [GiveUp(id)];
      AfterSnoc(start, [], GiveUp(id));
      if !ok { return Err("strict transition failed"), steps; }
      r := Ok(RetriedOutcome(t));
    }

    /** The part of a dispatch after the prompt is built: launch, await, settle. */
    method RunAgent(t: string, env: Environment) returns (r: Result<Outcome, string>, ghost steps: seq<Step>)
      requires CanMove(store.claims, t, Claimed) && env.issueFound
      modifies store
      ensures store.AsSystem(id, Idle) == After(old(store.AsSystem(id, Holding(t))), steps)
      ensures r == OutcomeOf(t, false, env) && store.claims == old(store.claims)[t := FinalClaim(false, env)]
      ensures steps == AgentSteps(id, env)
    {
      ghost var start := store.AsSystem(id, Holding(t));
      ghost var launched := if env.spawnOk then Launched(t) else SpawnFailed(t);
      store.SpawnAgent(t);
      assert map[id := Holding(t)][id := launched] == map[id := launched];
      steps := [Spawn(id, env.spawnOk)];
      AfterSnoc(start, [], Spawn(id, env.spawnOk));
      if !env.spawnOk {
        ghost var settled;
        r, settled := GiveUpTask(t, env);
        AfterConcat(start, steps, settled);
        steps := steps + settled;
        return;
      }
      ghost var settled;
      r, settled := RunLaunched(t, env);
      AfterConcat(start, steps, settled);
      steps := steps + settled;
    }

    /** A child was started: mark the row as running and see the child out. */
    method RunLaunched(t: string, env: Environment) returns (r: Result<Outcome, string>, ghost steps: seq<Step>)
      requires CanMove(store.claims, t, Claimed) && env.issueFound && env.spawnOk
      modifies store
      ensures store.AsSystem(id, Idle) == After(old(store.AsSystem(id, Launched(t))), steps)
      ensures r == OutcomeOf(t, false, env) && store.claims == old(store.claims)[t := FinalClaim(false, env)]
      ensures steps == [MarkRunning(id)] + AwaitSteps(id, env)
    {
      ghost var start := store.AsSystem(id, Launched(t));
      steps := [MarkRunning(id)];
      AfterSnoc(start, [], MarkRunning(id));
      var ok := StrictTransition(t, Claimed, Running, MarkRunning(id), Launched(t), Awaiting(t));
      if !ok { return Err("strict transition failed"), steps; }
      ghost var rest;
      r, rest := AwaitAgent(t, env);
      AfterConcat(start, steps, rest);
      steps := steps + rest;
    }

    /** Await the child, post the comment, write the final claim. */
    method AwaitAgent(t: string, env: Environment) returns (r: Result<Outcome, string>, ghost steps: seq<Step>)
      requires CanMove(store.claims, t, Running) && env.issueFound && env.spawnOk
      modifies store
      ensures store.AsSystem(id, Idle) == After(old(store.AsSystem(id, Awaiting(t))), steps)
      ensures r == OutcomeOf(t, false, env) && store.claims == old(store.claims)[t := FinalClaim(false, env)]
      ensures steps == AwaitSteps(id, env)
    {
      ghost var start, exited := store.AsSystem(id, Awaiting(t)), Exited(t, env.cleanExit);
      steps := [AgentDone(id, env.cleanExit)];
      AfterSnoc(start, [], AgentDone(id, env.cleanExit));
      assert map[id := Awaiting(t)][id := exited] == map[id := exited];
      if !env.commentPosted {
        AfterSnoc(start, steps, Abandon(id));
        assert map[id := exited][id := Idle] == map[id := Idle];
        return Err("comment failed"), steps + [Abandon(id)];
      }
      var end := if env.cleanExit then Released else RetryQueued;
      var ok := StrictTransition(t, Running, end, Settle(id), exited, Idle);
      if !ok { return Err("strict transition failed"), steps; }
      AfterSnoc(start, steps, Settle(id));
      return Ok(if env.cleanExit then ReleasedOutcome(t) else RetriedOutcome(t)), steps + [Settle(id)];
    }

    /**
     One dispatch that nobody interrupts is a run of the machine by this worker alone, ends idle,
     and reports what became of the row.
     */
    method DispatchOne(t: string, env: Environment) returns (r: Result<Outcome, string>, ghost steps: seq<Step>)
      modifies store
      ensures store.AsSystem(id, Idle) == After(old(store.AsSystem(id, Idle)), steps)
      ensures old(CanMove(store.claims, t, Unclaimed)) ==>
                r == OutcomeOf(t, dryRun, env) && store.claims == old(store.claims)[t := FinalClaim(dryRun, env)]
      ensures !old(CanMove(store.claims, t, Unclaimed)) ==> r == Ok(LostRace(t)) && store.claims == old(store.claims)
      ensures old(CanMove(store.claims, t, Unclaimed)) ==>
                && steps == WinningSteps(t, id, dryRun, env) && Tells(steps, id, env)
                && Reports(r, store.claims[t], steps, t, id)
      ensures !old(CanMove(store.claims, t, Unclaimed)) ==> steps == [TryClaim(id, t)]
    {
      ghost var start := store.AsSystem(id, Idle);
      var won := store.TryTransitionClaim(t, Unclaimed, Claimed);
      steps := [TryClaim(id, t)];
      AfterSnoc(start, [], TryClaim(id, t));
      assert map[id := Idle][id := Idle] == map[id := Idle] &&
        map[id := Idle][id := Holding(t)] == map[id := Holding(t)];
      if !won { return Ok(LostRace(t)), steps; }
      ReportsItsSteps(t, id, dryRun, env);
      if !env.issueFound {
        AfterSnoc(start, steps, Abandon(id));
        assert map[id := Holding(t)][id := Idle] == map[id := Idle];
        return Err("issue missing"), steps + [Abandon(id)];
      }
      if dryRun {
        var ok := StrictTransition(t, Claimed, Unclaimed, ReturnDryRun(id), Holding(t), Idle);
        if !ok { return Err("strict transition failed"), steps; }
        AfterSnoc(start, steps, ReturnDryRun(id));
        return Ok(DryRun(t)), steps + [ReturnDryRun(id)];
      }
      ghost var rest;
      r, rest := RunAgent(t, env);
      AfterConcat(start, steps, rest);
      steps := steps + rest;
    }

    /** One drain pass: dispatch the listed tasks in order, stopping at the first error. */
    method RunOnce(tasks: seq<string>, envs: seq<Environment>)
      returns (r: Result<seq<Outcome>, string>, ghost steps: seq<Step>)
      requires |tasks| == |envs|
      modifies store
      ensures store.AsSystem(id, Idle) == After(old(store.AsSystem(id, Idle)), steps)
      ensures (store.claims, r) == Drain(old(store.claims), dryRun, tasks, envs)
    {
      ghost var start, rows := store.AsSystem(id, Idle), store.claims;
      var outcomes := [];
      steps := [];
      for i := 0 to |tasks|
        invariant store.AsSystem(id, Idle) == After(start, steps)
        invariant (store.claims, Ok(outcomes)) == Drain(rows, dryRun, tasks[..i], envs[..i])
      {
        assert tasks[..i + 1][..i] == tasks[..i] && envs[..i + 1][..i] == envs[..i];
        var outcome;
        ghost var rest;
        outcome, rest := DispatchOne(tasks[i], envs[i]);
        AfterConcat(start, steps, rest);
        steps := steps + rest;
        if outcome.Err? {
          DrainStops(rows, dryRun, tasks, envs, i + 1);
          return Err(outcome.error), steps;
        }
        outcomes := outcomes + [outcome.value];
      }
      assert tasks[..|tasks|] == tasks && envs[..|tasks|] == envs;
      r := Ok(outcomes);
    }
  }
}
