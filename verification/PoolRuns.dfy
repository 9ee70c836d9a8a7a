/**
 The browser pool at lock granularity.  An `acquire` that has to launch lets go
 of the lock around the launch and again between pushing the new Chromium and
 binding the session; a `sweep` expires, snapshots and applies its plans under
 separate locks.  Any number of callers and sweepers interleave these steps.
 */
module PoolRuns {
  import opened Common
  import opened Pool

  datatype Caller =
    | Idle
    | Launching(ttl: nat)
    | Landed(chromium: nat, ttl: nat)   // launched, not yet in the pool
    | Pushed(chromium: nat, ttl: nat)   // in the pool, session not yet bound

  datatype Sweeper = Resting | Expired(now: int) | Applying(plans: seq<Plan>)

  datatype System = System(pool: State, callers: seq<Caller>, sweepers: seq<Sweeper>, nextId: nat, aborts: nat)

  datatype Step =
    | Begin(caller: nat, ttl: nat, token: string, now: int)
    | LaunchReturns(caller: nat, ok: bool)
    | PushChromium(caller: nat, now: int)
    | BindSession(caller: nat, token: string, now: int)
    | Release(session: nat, now: int)
    | SweepExpire(sweeper: nat, now: int, touch: int)
    | SweepSnapshot(sweeper: nat)
    | SweepApply(sweeper: nat)

  function Start(callers: nat, sweepers: nat): System {
    System(EMPTY, seq(callers, _ => Idle), seq(sweepers, _ => Resting), 0, 0)
  }

  predicate ValidTtl(ttl: nat) {
    0 < ttl <= MAX_TTL_SECONDS
  }

  function NewSession(id: nat, chromium: nat, ttl: nat, token: string, now: int): Session {
    Session(id, token, chromium, now, now + ttl * NANOS)
  }

  function Next(s: System, cfg: Config, step: Step): System {
    match step
    case Begin(k, ttl, token, now) =>
      if k >= |s.callers| || !s.callers[k].Idle? || !ValidTtl(ttl) then s else
      (match FindWarmest(s.pool.chromiums, cfg)
       case Some(i) =>
         s.(pool := Bind(s.pool, i, NewSession(s.nextId, s.pool.chromiums[i].id, ttl, token, now)),
           nextId := s.nextId + 1)
       case None =>
         if |s.pool.chromiums| >= cfg.poolMax then s else s.(callers := s.callers[k := Launching(ttl)]))
    case LaunchReturns(k, ok) =>
      if k >= |s.callers| || !s.callers[k].Launching? then s
      else if ok then s.(callers := s.callers[k := Landed(s.nextId, s.callers[k].ttl)], nextId := s.nextId + 1)
      else s.(callers := s.callers[k := Idle])
    case PushChromium(k, now) =>
      if k >= |s.callers| || !s.callers[k].Landed? then s else
      var c := s.callers[k];
      s.(pool := Push(s.pool, c.chromium, now), callers := s.callers[k := Pushed(c.chromium, c.ttl)])
    case BindSession(k, token, now) =>
      if k >= |s.callers| || !s.callers[k].Pushed? then s else
      var c := s.callers[k];
      var r := s.(callers := s.callers[k := Idle]);
      (match Position(s.pool.chromiums, c.chromium)
       case Some(i) => r.(pool := Bind(s.pool, i, NewSession(s.nextId, c.chromium, c.ttl, token, now)),
         nextId := s.nextId + 1)
       case None => r.(aborts := s.aborts + 1))
    case Release(sid, now) => s.(pool := Drop(s.pool, sid, now))
    case SweepExpire(j, now, touch) =>
      if j >= |s.sweepers| || !s.sweepers[j].Resting? then s
      else s.(pool := Expire(s.pool, now, touch), sweepers := s.sweepers[j := Expired(now)])
    case SweepSnapshot(j) =>
      if j >= |s.sweepers| || !s.sweepers[j].Expired? then s
      else s.(sweepers := s.sweepers[j := Applying(Plans(Snapshots(s.pool.chromiums), cfg, s.sweepers[j].now))])
    case SweepApply(j) =>
      if j >= |s.sweepers| || !s.sweepers[j].Applying? then s else
      var plans := s.sweepers[j].plans;
      if plans == [] then s.(sweepers := s.sweepers[j := Resting])
      else s.(pool := Apply(s.pool, plans[0]), sweepers := s.sweepers[j := Applying(plans[1..])])
  }

  function After(s: System, cfg: Config, steps: seq<Step>): System
    decreases |steps|
  {
    if steps == [] then s else After(Next(s, cfg, steps[0]), cfg, steps[1..])
  }

  // --- Coherence in every interleaving ---

  predicate Owns(c: Caller) {
    c.Landed? || c.Pushed?
  }

  ghost predicate Fresh(s: System) {
    && (forall i :: 0 <= i < |s.pool.chromiums| ==> s.pool.chromiums[i].id < s.nextId)
    && (forall j :: 0 <= j < |s.pool.sessions| ==>
      s.pool.sessions[j].id < s.nextId && s.pool.sessions[j].chromium < s.nextId)
    && (forall k :: 0 <= k < |s.callers| && Owns(s.callers[k]) ==> s.callers[k].chromium < s.nextId)
  }

  /** A launched process belongs to one caller, and nobody else knows it before it is pushed. */
  ghost predicate Owned(s: System) {
    && (forall k, l :: 0 <= k < l < |s.callers| && Owns(s.callers[k]) && Owns(s.callers[l]) ==>
          s.callers[k].chromium != s.callers[l].chromium)
    && (forall k :: 0 <= k < |s.callers| && s.callers[k].Landed? ==>
          && (forall i :: 0 <= i < |s.pool.chromiums| ==> s.pool.chromiums[i].id != s.callers[k].chromium)
          && (forall j :: 0 <= j < |s.pool.sessions| ==> s.pool.sessions[j].chromium != s.callers[k].chromium))
  }

  ghost predicate Base(s: System) {
    Coherent(s.pool) && Fresh(s) && Owned(s)
  }

  lemma ShrunkKeepsBase(s: System, q: State, sweepers: seq<Sweeper>)
    requires Base(s) && Shrunk(s.pool, q) && Coherent(q)
    ensures Base(s.(pool := q, sweepers := sweepers))
  {
    forall j | 0 <= j < |q.sessions|
      ensures exists i :: 0 <= i < |s.pool.sessions| && s.pool.sessions[i] == q.sessions[j]
    {
      assert q.sessions[j] in s.pool.sessions;
    }
  }

  lemma ApplyShape(p: State, plan: Plan)
    ensures Apply(p, plan).sessions == p.sessions
    ensures forall i :: 0 <= i < |Apply(p, plan).chromiums| ==>
              exists k :: 0 <= k < |p.chromiums| &&
                p.chromiums[k].id == Apply(p, plan).chromiums[i].id &&
                  p.chromiums[k].sessions == Apply(p, plan).chromiums[i].sessions
    ensures |Apply(p, plan).chromiums| <= |p.chromiums|
  {
    var at := Position(p.chromiums, plan.id);
    if at.Some? {
      forall i | 0 <= i < |Apply(p, plan).chromiums|
        ensures exists k :: 0 <= k < |p.chromiums| &&
                  p.chromiums[k].id == Apply(p, plan).chromiums[i].id &&
                    p.chromiums[k].sessions == Apply(p, plan).chromiums[i].sessions
      {
        var k := if plan.Kill? && at.value <= i then i + 1 else i;
        assert p.chromiums[k].id == Apply(p, plan).chromiums[i].id;
      }
    }
  }

  lemma BeginKeepsBase(s: System, cfg: Config, k: nat, ttl: nat, token: string, now: int)
    requires Base(s)
    ensures Base(Next(s, cfg, Begin(k, ttl, token, now)))
  {
    var w := FindWarmest(s.pool.chromiums, cfg);
    if w.Some? {
      BindKeepsCoherent(s.pool, w.value, NewSession(s.nextId, s.pool.chromiums[w.value].id, ttl, token, now));
    }
  }

  lemma PushKeepsBase(s: System, cfg: Config, k: nat, now: int)
    requires Base(s)
    ensures Base(Next(s, cfg, PushChromium(k, now)))
  {
    if k < |s.callers| && s.callers[k].Landed? {
      PushKeepsCoherent(s.pool, s.callers[k].chromium, now);
    }
  }

  lemma BindKeepsBase(s: System, cfg: Config, k: nat, token: string, now: int)
    requires Base(s)
    ensures Base(Next(s, cfg, BindSession(k, token, now)))
  {
    if k < |s.callers| && s.callers[k].Pushed? {
      var c := s.callers[k];
      var at := Position(s.pool.chromiums, c.chromium);
      if at.Some? {
        BindKeepsCoherent(s.pool, at.value, NewSession(s.nextId, c.chromium, c.ttl, token, now));
      }
    }
  }

  lemma SweepKeepsBase(s: System, cfg: Config, step: Step)
    requires Base(s) && (step.SweepExpire? || step.SweepSnapshot? || step.SweepApply? || step.Release?)
    ensures Base(Next(s, cfg, step))
  {
    match step
    case Release(sid, now) =>
      DropKeepsCoherent(s.pool, sid, now);
      DropShrinks(s.pool, sid, now);
      ShrunkKeepsBase(s, Drop(s.pool, sid, now), s.sweepers);
    case SweepExpire(j, now, touch) =>
      ExpireExact(s.pool, now, touch);
      ShrunkKeepsBase(s, Expire(s.pool, now, touch), Next(s, cfg, step).sweepers);
    case SweepApply(j) =>
      if j < |s.sweepers| && s.sweepers[j].Applying? && s.sweepers[j].plans != [] {
        var plan := s.sweepers[j].plans[0];
        ApplyKeepsCoherent(s.pool, plan);
        ApplyShape(s.pool, plan);
      }
    case _ =>
  }

  lemma NextKeepsBase(s: System, cfg: Config, step: Step)
    requires Base(s)
    ensures Base(Next(s, cfg, step))
  {
    match step
    case Begin(k, ttl, token, now) => BeginKeepsBase(s, cfg, k, ttl, token, now);
    case LaunchReturns(_, _) =>
    case PushChromium(k, now) => PushKeepsBase(s, cfg, k, now);
    case BindSession(k, token, now) => BindKeepsBase(s, cfg, k, token, now);
    case _ => SweepKeepsBase(s, cfg, step);
  }

  lemma {:induction false} RunKeepsBase(s: System, cfg: Config, steps: seq<Step>)
    requires Base(s)
    ensures Base(After(s, cfg, steps))
    decreases |steps|
  {
    if steps != [] {
      NextKeepsBase(s, cfg, steps[0]);
      RunKeepsBase(Next(s, cfg, steps[0]), cfg, steps[1..]);
    }
  }

  /** In every reachable state each Chromium lists exactly its session records, in order and without repeats. */
  lemma SessionListsMatchRecords(callers: nat, sweepers: nat, cfg: Config, steps: seq<Step>, i: nat)
    requires i < |After(Start(callers, sweepers), cfg, steps).pool.chromiums|
    ensures var p := After(Start(callers, sweepers), cfg, steps).pool;
            && p.chromiums[i].sessions == IdsOn(p.sessions, p.chromiums[i].id)
            && NoRepeats(p.chromiums[i].sessions)
  {
    RunKeepsBase(Start(callers, sweepers), cfg, steps);
    var p := After(Start(callers, sweepers), cfg, steps).pool;
    IdsOnNoRepeats(p.sessions, p.chromiums[i].id);
  }

  // --- Capacity ---

  function Weight(c: Caller): nat {
    if c.Launching? || c.Landed? then 1 else 0
  }

  /** Launches in flight: started, and the process not yet in the pool. */
  function InFlight(callers: seq<Caller>): nat {
    if callers == [] then 0 else InFlight(callers[..|callers| - 1]) + Weight(callers[|callers| - 1])
  }

  lemma {:induction false} InFlightUpdate(callers: seq<Caller>, k: nat, c: Caller)
    requires k < |callers|
    ensures InFlight(callers[k := c]) + Weight(callers[k]) == InFlight(callers) + Weight(c)
  {
    var last := |callers| - 1;
    if k < last {
      InFlightUpdate(callers[..last], k, c);
      assert callers[k := c][..last] == callers[..last][k := c];
    } else {
      assert callers[k := c][..last] == callers[..last];
    }
  }

  lemma {:induction false} InFlightBound(callers: seq<Caller>)
    ensures InFlight(callers) <= |callers|
  {
    if callers != [] {
      InFlightBound(callers[..|callers| - 1]);
    }
  }

  ghost predicate PoolBounded(s: System, cfg: Config) {
    |s.pool.chromiums| + InFlight(s.callers) <= cfg.poolMax + |s.callers| - 1
  }

  lemma NextKeepsPoolBounded(s: System, cfg: Config, step: Step)
    requires Base(s) && PoolBounded(s, cfg)
    ensures PoolBounded(Next(s, cfg, step), cfg)
  {
    var t := Next(s, cfg, step);
    match step
    case Begin(k, _, _, _) =>
      if t.callers != s.callers {
        InFlightBound(t.callers);
      }
    case LaunchReturns(k, ok) =>
      if k < |s.callers| { InFlightUpdate(s.callers, k, t.callers[k]); }
    case PushChromium(k, _) =>
      if k < |s.callers| { InFlightUpdate(s.callers, k, t.callers[k]); }
    case BindSession(k, _, _) =>
      if k < |s.callers| { InFlightUpdate(s.callers, k, t.callers[k]); }
    case Release(sid, now) => DropShrinks(s.pool, sid, now);
    case SweepExpire(j, now, touch) => ExpireExact(s.pool, now, touch);
    case SweepApply(j) =>
      if j < |s.sweepers| && s.sweepers[j].Applying? && s.sweepers[j].plans != [] {
        ApplyShape(s.pool, s.sweepers[j].plans[0]);
      }
    case SweepSnapshot(_) =>
  }

  ghost predicate AwaitsFirst(callers: seq<Caller>, chromium: nat) {
    exists k :: 0 <= k < |callers| && callers[k].Pushed? && callers[k].chromium == chromium
  }

  /** One session more than the limit is possible, but not before the launching caller has bound its own. */
  ghost predicate HostsBounded(s: System, cfg: Config) {
    forall i :: 0 <= i < |s.pool.chromiums| ==>
      && |s.pool.chromiums[i].sessions| <= cfg.contextsMax + 1
      && (AwaitsFirst(s.callers, s.pool.chromiums[i].id) ==> |s.pool.chromiums[i].sessions| <= cfg.contextsMax)
  }

  /** Whoever waits for its first session after a caller's step waited before, or has just pushed an empty process. */
  lemma WaitersWaited(s: System, cfg: Config, step: Step, i: nat)
    requires step.Begin? || step.LaunchReturns? || step.PushChromium? || step.BindSession?
    requires Base(s) && i < |s.pool.chromiums| && i < |Next(s, cfg, step).pool.chromiums|
    requires AwaitsFirst(Next(s, cfg, step).callers, s.pool.chromiums[i].id)
    ensures AwaitsFirst(s.callers, s.pool.chromiums[i].id)
    ensures step.BindSession? && step.caller < |s.callers| && s.callers[step.caller].Pushed? ==>
              s.callers[step.caller].chromium != s.pool.chromiums[i].id
  {
    var t := Next(s, cfg, step);
    var l :| 0 <= l < |t.callers| && t.callers[l].Pushed? && t.callers[l].chromium == s.pool.chromiums[i].id;
    assert s.callers[l].Pushed? && s.callers[l].chromium == s.pool.chromiums[i].id;
  }

  lemma CallerStepKeepsHostsBounded(s: System, cfg: Config, step: Step)
    requires Base(s) && HostsBounded(s, cfg)
    requires step.Begin? || step.LaunchReturns? || step.PushChromium? || step.BindSession?
    ensures HostsBounded(Next(s, cfg, step), cfg)
  {
    var t := Next(s, cfg, step);
    var k := step.caller;
    forall i | 0 <= i < |t.pool.chromiums|
      ensures |t.pool.chromiums[i].sessions| <= cfg.contextsMax + 1
      ensures AwaitsFirst(t.callers, t.pool.chromiums[i].id) ==> |t.pool.chromiums[i].sessions| <= cfg.contextsMax
    {
      if i < |s.pool.chromiums| {
        assert t.pool.chromiums[i].id == s.pool.chromiums[i].id;
        if AwaitsFirst(t.callers, s.pool.chromiums[i].id) {
          WaitersWaited(s, cfg, step, i);
        }
        if step.BindSession? && k < |s.callers| && s.callers[k].Pushed? &&
          s.callers[k].chromium == s.pool.chromiums[i].id {
          assert AwaitsFirst(s.callers, s.pool.chromiums[i].id);
        }
      }
    }
  }

  lemma SweepStepKeepsHostsBounded(s: System, cfg: Config, step: Step)
    requires Base(s) && HostsBounded(s, cfg)
    requires step.SweepExpire? || step.SweepSnapshot? || step.SweepApply? || step.Release?
    ensures HostsBounded(Next(s, cfg, step), cfg)
  {
    match step
    case Release(sid, now) => DropShrinks(s.pool, sid, now);
    case SweepExpire(j, now, touch) => ExpireExact(s.pool, now, touch);
    case SweepApply(j) =>
      if j < |s.sweepers| && s.sweepers[j].Applying? && s.sweepers[j].plans != [] {
        ApplyShape(s.pool, s.sweepers[j].plans[0]);
      }
    case SweepSnapshot(_) =>
  }

  lemma {:induction false} RunKeepsBounds(s: System, cfg: Config, steps: seq<Step>)
    requires Base(s) && PoolBounded(s, cfg) && HostsBounded(s, cfg)
    ensures PoolBounded(After(s, cfg, steps), cfg) && HostsBounded(After(s, cfg, steps), cfg)
    ensures |After(s, cfg, steps).callers| == |s.callers|
    decreases |steps|
  {
    if steps != [] {
      var step := steps[0];
      NextKeepsBase(s, cfg, step);
      NextKeepsPoolBounded(s, cfg, step);
      if step.Begin? || step.LaunchReturns? || step.PushChromium? || step.BindSession? {
        CallerStepKeepsHostsBounded(s, cfg, step);
      } else {
        SweepStepKeepsHostsBounded(s, cfg, step);
      }
      RunKeepsBounds(Next(s, cfg, step), cfg, steps[1..]);
    }
  }

  lemma {:induction false} NobodyInFlight(callers: seq<Caller>)
    requires forall k :: 0 <= k < |callers| ==> callers[k].Idle?
    ensures InFlight(callers) == 0
  {
    if callers != [] {
      NobodyInFlight(callers[..|callers| - 1]);
    }
  }

  /**
   With n concurrent callers the pool never exceeds `poolMax + n - 1` processes, launches in flight
   included, and no process hosts more than one session over its limit.
   */
  lemma CapacityUnderConcurrency(n: nat, sweepers: nat, cfg: Config, steps: seq<Step>)
    requires n >= 1
    ensures var s := After(Start(n, sweepers), cfg, steps);
            && |s.pool.chromiums| + InFlight(s.callers) <= cfg.poolMax + n - 1
            && forall i :: 0 <= i < |s.pool.chromiums| ==> |s.pool.chromiums[i].sessions| <= cfg.contextsMax + 1
  {
    NobodyInFlight(Start(n, sweepers).callers);
    RunKeepsBounds(Start(n, sweepers), cfg, steps);
  }

  // --- One caller at a time ---

  ghost predicate OneCallerBounded(s: System, cfg: Config) {
    && |s.callers| == 1
    && (forall i :: 0 <= i < |s.pool.chromiums| ==>
          && |s.pool.chromiums[i].sessions| <= cfg.contextsMax
          && (s.callers[0].Pushed? && s.callers[0].chromium == s.pool.chromiums[i].id ==>
            s.pool.chromiums[i].sessions == []))
  }

  lemma NextKeepsOneCallerBounded(s: System, cfg: Config, step: Step)
    requires Base(s) && OneCallerBounded(s, cfg) && cfg.contextsMax >= 1
    ensures OneCallerBounded(Next(s, cfg, step), cfg)
  {
    match step
    case Release(sid, now) => DropShrinks(s.pool, sid, now);
    case SweepExpire(j, now, touch) => ExpireExact(s.pool, now, touch);
    case SweepApply(j) =>
      if j < |s.sweepers| && s.sweepers[j].Applying? && s.sweepers[j].plans != [] {
        ApplyShape(s.pool, s.sweepers[j].plans[0]);
      }
    case _ =>
  }

  lemma {:induction false} RunKeepsOneCallerBounded(s: System, cfg: Config, steps: seq<Step>)
    requires Base(s) && OneCallerBounded(s, cfg) && cfg.contextsMax >= 1
    ensures OneCallerBounded(After(s, cfg, steps), cfg)
    decreases |steps|
  {
    if steps != [] {
      NextKeepsBase(s, cfg, steps[0]);
      NextKeepsOneCallerBounded(s, cfg, steps[0]);
      RunKeepsOneCallerBounded(Next(s, cfg, steps[0]), cfg, steps[1..]);
    }
  }

  lemma {:induction false} AfterConcat(s: System, cfg: Config, first: seq<Step>, second: seq<Step>)
    ensures After(s, cfg, first + second) == After(After(s, cfg, first), cfg, second)
    decreases |first|
  {
    if first == [] {
      assert first + second == second;
    } else {
      assert (first + second)[1..] == first[1..] + second;
      AfterConcat(Next(s, cfg, first[0]), cfg, first[1..], second);
    }
  }

  // --- Orphans ---

  /** No step that could add a session runs while some sweep still has plans to apply. */
  ghost predicate AcquiresAvoidSweeps(s: System, cfg: Config, steps: seq<Step>)
    decreases |steps|
  {
    steps == [] ||
    (&& (steps[0].Begin? || steps[0].BindSession? ==>
           forall j :: 0 <= j < |s.sweepers| && s.sweepers[j].Applying? ==> s.sweepers[j].plans == [])
     && AcquiresAvoidSweeps(Next(s, cfg, steps[0]), cfg, steps[1..]))
  }

  ghost predicate KillsAreEmpty(p: State, plans: seq<Plan>) {
    forall n, i :: 0 <= n < |plans| && 0 <= i < |p.chromiums| && plans[n].Kill? && p.chromiums[i].id == plans[n].id ==>
      p.chromiums[i].sessions == []
  }

  ghost predicate Quiet(s: System) {
    NoOrphans(s.pool) && forall j :: 0 <= j < |s.sweepers| && s.sweepers[j].Applying? ==>
      KillsAreEmpty(s.pool, s.sweepers[j].plans)
  }

  lemma ShrunkKeepsQuiet(p: State, q: State, plans: seq<Plan>)
    requires Shrunk(p, q)
    ensures NoOrphans(p) ==> NoOrphans(q)
    ensures KillsAreEmpty(p, plans) ==> KillsAreEmpty(q, plans)
  {
    if NoOrphans(p) {
      forall j | 0 <= j < |q.sessions|
        ensures Present(q, q.sessions[j].chromium)
      {
        assert q.sessions[j] in p.sessions;
        var n :| 0 <= n < |p.sessions| && p.sessions[n] == q.sessions[j];
        var i :| 0 <= i < |p.chromiums| && p.chromiums[i].id == p.sessions[n].chromium;
        assert q.chromiums[i].id == q.sessions[j].chromium;
      }
    }
  }

  lemma ApplyKeepsQuiet(p: State, plan: Plan, plans: seq<Plan>)
    requires Coherent(p) && NoOrphans(p) && KillsAreEmpty(p, [plan])
    ensures NoOrphans(Apply(p, plan))
    ensures KillsAreEmpty(p, plans) ==> KillsAreEmpty(Apply(p, plan), plans)
  {
    ApplyShape(p, plan);
    var q := Apply(p, plan);
    var at := Position(p.chromiums, plan.id);
    forall j | 0 <= j < |q.sessions|
      ensures Present(q, q.sessions[j].chromium)
    {
      var i :| 0 <= i < |p.chromiums| && p.chromiums[i].id == p.sessions[j].chromium;
      if plan.Kill? && at.Some? {
        if i == at.value {
          assert [plan][0].Kill?;
          IdsOnMembers(p.sessions, p.chromiums[i].id, p.sessions[j].id);
        }
        assert i != at.value;
        assert q.chromiums[if i < at.value then i else i - 1].id == q.sessions[j].chromium;
      } else {
        assert q.chromiums[i].id == q.sessions[j].chromium;
      }
    }
  }

  lemma PlansKillEmpty(p: State, cfg: Config, now: int)
    requires Coherent(p)
    ensures KillsAreEmpty(p, Plans(Snapshots(p.chromiums), cfg, now))
  {
    var plans := Plans(Snapshots(p.chromiums), cfg, now);
    forall n, i | 0 <= n < |plans| && 0 <= i < |p.chromiums| && plans[n].Kill? && p.chromiums[i].id == plans[n].id
      ensures p.chromiums[i].sessions == []
    {
      PlansSound(Snapshots(p.chromiums), cfg, now, plans[n]);
      assert plans[n] in plans;
    }
  }

  lemma GrowthKeepsNoOrphans(p: State, q: State)
    requires NoOrphans(p) && |p.chromiums| <= |q.chromiums|
    requires forall i :: 0 <= i < |p.chromiums| ==> q.chromiums[i].id == p.chromiums[i].id
    requires q.sessions == p.sessions ||
             (|q.sessions| == |p.sessions| + 1 && q.sessions[..|p.sessions|] == p.sessions &&
               Present(q, q.sessions[|p.sessions|].chromium))
    ensures NoOrphans(q)
  {
    forall j | 0 <= j < |q.sessions|
      ensures Present(q, q.sessions[j].chromium)
    {
      if j < |p.sessions| {
        assert q.sessions[j] == p.sessions[j];
        var i :| 0 <= i < |p.chromiums| && p.chromiums[i].id == p.sessions[j].chromium;
        assert q.chromiums[i].id == q.sessions[j].chromium;
      }
    }
  }

  lemma CallerStepKeepsNoOrphans(s: System, cfg: Config, step: Step)
    requires Base(s) && NoOrphans(s.pool)
    requires step.Begin? || step.LaunchReturns? || step.PushChromium? || step.BindSession?
    ensures NoOrphans(Next(s, cfg, step).pool)
  {
    var t := Next(s, cfg, step);
    if |t.pool.sessions| > |s.pool.sessions| {
      var r := t.pool.sessions[|s.pool.sessions|];
      var i := if step.Begin? then FindWarmest(s.pool.chromiums, cfg).value
               else Position(s.pool.chromiums, s.callers[step.caller].chromium).value;
      assert t.pool.chromiums[i].id == r.chromium;
    }
    GrowthKeepsNoOrphans(s.pool, t.pool);
  }

  lemma CallerStepKeepsQuiet(s: System, cfg: Config, step: Step)
    requires Base(s) && Quiet(s)
    requires step.Begin? || step.LaunchReturns? || step.PushChromium? || step.BindSession?
    requires step.Begin? || step.BindSession? ==>
               forall j :: 0 <= j < |s.sweepers| && s.sweepers[j].Applying? ==> s.sweepers[j].plans == []
    ensures Quiet(Next(s, cfg, step))
  {
    CallerStepKeepsNoOrphans(s, cfg, step);
  }

  lemma SweepStepKeepsQuiet(s: System, cfg: Config, step: Step)
    requires Base(s) && Quiet(s)
    requires step.SweepExpire? || step.SweepSnapshot? || step.SweepApply? || step.Release?
    ensures Quiet(Next(s, cfg, step))
  {
    var t := Next(s, cfg, step);
    match step
    case Release(sid, now) =>
      DropShrinks(s.pool, sid, now);
      forall j | 0 <= j < |s.sweepers| && s.sweepers[j].Applying?
        ensures KillsAreEmpty(t.pool, s.sweepers[j].plans)
      {
        ShrunkKeepsQuiet(s.pool, t.pool, s.sweepers[j].plans);
      }
      ShrunkKeepsQuiet(s.pool, t.pool, []);
    case SweepExpire(_, now, touch) =>
      if t != s {
        ExpireExact(s.pool, now, touch);
        forall j | 0 <= j < |t.sweepers| && t.sweepers[j].Applying?
          ensures KillsAreEmpty(t.pool, t.sweepers[j].plans)
        {
          ShrunkKeepsQuiet(s.pool, t.pool, s.sweepers[j].plans);
        }
        ShrunkKeepsQuiet(s.pool, t.pool, []);
      }
    case SweepSnapshot(n) =>
      if n < |s.sweepers| && s.sweepers[n].Expired? {
        PlansKillEmpty(s.pool, cfg, s.sweepers[n].now);
      }
    case SweepApply(n) =>
      if n < |s.sweepers| && s.sweepers[n].Applying? && s.sweepers[n].plans != [] {
        var plan, rest := s.sweepers[n].plans[0], s.sweepers[n].plans[1..];
        assert KillsAreEmpty(s.pool, [plan]) && KillsAreEmpty(s.pool, rest);
        forall j | 0 <= j < |t.sweepers| && t.sweepers[j].Applying?
          ensures KillsAreEmpty(t.pool, t.sweepers[j].plans)
        {
          ApplyKeepsQuiet(s.pool, plan, t.sweepers[j].plans);
        }
        ApplyKeepsQuiet(s.pool, plan, []);
      }
  }

  lemma {:induction false} RunKeepsQuiet(s: System, cfg: Config, steps: seq<Step>)
    requires Base(s) && Quiet(s) && AcquiresAvoidSweeps(s, cfg, steps)
    ensures Quiet(After(s, cfg, steps))
    decreases |steps|
  {
    if steps != [] {
      var step := steps[0];
      NextKeepsBase(s, cfg, step);
      if step.Begin? || step.LaunchReturns? || step.PushChromium? || step.BindSession? {
        CallerStepKeepsQuiet(s, cfg, step);
      } else {
        SweepStepKeepsQuiet(s, cfg, step);
      }
      RunKeepsQuiet(Next(s, cfg, step), cfg, steps[1..]);
    }
  }

  /**
   If no acquire falls between a sweep's snapshot and its last plan, no record is left pointing at a
   removed process.
   */
  lemma NoOrphansWithoutOverlap(callers: nat, sweepers: nat, cfg: Config, steps: seq<Step>)
    requires AcquiresAvoidSweeps(Start(callers, sweepers), cfg, steps)
    ensures NoOrphans(After(Start(callers, sweepers), cfg, steps).pool)
  {
    RunKeepsQuiet(Start(callers, sweepers), cfg, steps);
  }

  /** A kill orphans records exactly when its target has sessions at that moment. */
  lemma KillOrphansIff(p: State, plan: Plan)
    requires Coherent(p) && NoOrphans(p) && plan.Kill?
    ensures !NoOrphans(Apply(p, plan)) <==>
            exists i :: 0 <= i < |p.chromiums| && p.chromiums[i].id == plan.id && p.chromiums[i].sessions != []
  {
    if exists i :: 0 <= i < |p.chromiums| && p.chromiums[i].id == plan.id && p.chromiums[i].sessions != [] {
      var i :| 0 <= i < |p.chromiums| && p.chromiums[i].id == plan.id && p.chromiums[i].sessions != [];
      IdsOnMembers(p.sessions, plan.id, p.chromiums[i].sessions[0]);
      var j :| 0 <= j < |p.sessions| && p.sessions[j].chromium == plan.id;
      var q := Apply(p, plan);
      assert q.sessions[j].chromium == plan.id && !Present(q, plan.id);
    } else {
      ApplyKeepsQuiet(p, plan, []);
    }
  }

  // --- The `expect` after the launch ---

  /** The step kills this very process. */
  ghost predicate Kills(s: System, step: Step, chromium: nat) {
    step.SweepApply? && step.sweeper < |s.sweepers| && s.sweepers[step.sweeper].Applying? &&
    var plans := s.sweepers[step.sweeper].plans;
    plans != [] && plans[0].Kill? && plans[0].id == chromium && Present(s.pool, chromium)
  }

  lemma ApplyKeepsOthers(p: State, plan: Plan, chromium: nat)
    requires DistinctChromiums(p.chromiums) && Present(p, chromium)
    ensures Present(Apply(p, plan), chromium) <==> !(plan.Kill? && plan.id == chromium)
  {
    var q, at := Apply(p, plan), Position(p.chromiums, plan.id);
    var i :| 0 <= i < |p.chromiums| && p.chromiums[i].id == chromium;
    if plan.Drain? || at.None? {
      assert q.chromiums[i].id == chromium;
    } else if at.value < i {
      assert q.chromiums[i - 1].id == chromium;
    } else if i < at.value {
      assert q.chromiums[i].id == chromium;
    }
  }

  /** A process in the pool leaves it exactly by a kill of that very process. */
  lemma LeavesIffKilled(s: System, cfg: Config, step: Step, chromium: nat)
    requires Base(s) && Present(s.pool, chromium)
    ensures Present(Next(s, cfg, step).pool, chromium) <==> !Kills(s, step, chromium)
  {
    var t := Next(s, cfg, step);
    if step.SweepApply? && step.sweeper < |s.sweepers| && s.sweepers[step.sweeper].Applying? &&
      s.sweepers[step.sweeper].plans != [] {
      ApplyKeepsOthers(s.pool, s.sweepers[step.sweeper].plans[0], chromium);
    } else {
      if step.Release? { DropShrinks(s.pool, step.session, step.now); }
      if step.SweepExpire? { ExpireExact(s.pool, step.now, step.touch); }
      var i :| 0 <= i < |s.pool.chromiums| && s.pool.chromiums[i].id == chromium;
      assert t.pool.chromiums[i].id == chromium;
    }
  }

  /** The id was used, its process is not in the pool, and nobody is about to push it. */
  ghost predicate Gone(s: System, chromium: nat) {
    && chromium < s.nextId && !Present(s.pool, chromium)
    && forall k :: 0 <= k < |s.callers| && s.callers[k].Landed? ==> s.callers[k].chromium != chromium
  }

  lemma GoneStays(s: System, cfg: Config, step: Step, chromium: nat)
    requires Base(s) && Gone(s, chromium)
    ensures Gone(Next(s, cfg, step), chromium)
  {
    var t := Next(s, cfg, step);
    match step
    case Release(sid, now) => DropShrinks(s.pool, sid, now);
    case SweepExpire(_, now, touch) => ExpireExact(s.pool, now, touch);
    case SweepApply(j) =>
      if j < |s.sweepers| && s.sweepers[j].Applying? && s.sweepers[j].plans != [] {
        ApplyShape(s.pool, s.sweepers[j].plans[0]);
      }
    case _ =>
  }

  lemma KilledIsGone(s: System, cfg: Config, step: Step, chromium: nat)
    requires Base(s) && Kills(s, step, chromium)
    ensures Gone(Next(s, cfg, step), chromium)
  {
    LeavesIffKilled(s, cfg, step, chromium);
    var i :| 0 <= i < |s.pool.chromiums| && s.pool.chromiums[i].id == chromium;
  }

  predicate IsCallerStep(step: Step, k: nat) {
    (step.Begin? || step.LaunchReturns? || step.PushChromium? || step.BindSession?) && step.caller == k
  }

  /** Some step of the run kills the process. */
  ghost predicate KilledDuring(s: System, cfg: Config, steps: seq<Step>, chromium: nat)
    decreases |steps|
  {
    steps != [] && (Kills(s, steps[0], chromium) || KilledDuring(Next(s, cfg, steps[0]), cfg, steps[1..], chromium))
  }

  lemma {:induction false} GoneForever(s: System, cfg: Config, steps: seq<Step>, chromium: nat)
    requires Base(s) && Gone(s, chromium)
    ensures Gone(After(s, cfg, steps), chromium)
    decreases |steps|
  {
    if steps != [] {
      NextKeepsBase(s, cfg, steps[0]);
      GoneStays(s, cfg, steps[0], chromium);
      GoneForever(Next(s, cfg, steps[0]), cfg, steps[1..], chromium);
    }
  }

  lemma {:induction false} PresentUnlessKilled(s: System, cfg: Config, steps: seq<Step>, chromium: nat)
    requires Base(s) && Present(s.pool, chromium)
    ensures Present(After(s, cfg, steps).pool, chromium) <==> !KilledDuring(s, cfg, steps, chromium)
    decreases |steps|
  {
    if steps != [] {
      NextKeepsBase(s, cfg, steps[0]);
      LeavesIffKilled(s, cfg, steps[0], chromium);
      if Kills(s, steps[0], chromium) {
        KilledIsGone(s, cfg, steps[0], chromium);
        GoneForever(Next(s, cfg, steps[0]), cfg, steps[1..], chromium);
      } else {
        PresentUnlessKilled(Next(s, cfg, steps[0]), cfg, steps[1..], chromium);
      }
    }
  }

  lemma {:induction false} CallerWaits(s: System, cfg: Config, steps: seq<Step>, k: nat)
    requires k < |s.callers| && forall i :: 0 <= i < |steps| ==> !IsCallerStep(steps[i], k)
    ensures k < |After(s, cfg, steps).callers| && After(s, cfg, steps).callers[k] == s.callers[k]
    decreases |steps|
  {
    if steps != [] {
      assert !IsCallerStep(steps[0], k);
      CallerWaits(Next(s, cfg, steps[0]), cfg, steps[1..], k);
    }
  }

  /**
   However long a caller is held up between push and bind, its lookup fails exactly when some step in
   between killed its process; otherwise it adds its session.
   */
  lemma BindAbortsIffKilled(s: System, cfg: Config, steps: seq<Step>, k: nat, token: string, now: int)
    requires Base(s) && k < |s.callers| && s.callers[k].Pushed? && Present(s.pool, s.callers[k].chromium)
    requires forall i :: 0 <= i < |steps| ==> !IsCallerStep(steps[i], k)
    ensures var t := After(s, cfg, steps);
            var u := Next(t, cfg, BindSession(k, token, now));
            var c := s.callers[k];
            && k < |t.callers| && t.callers[k] == c
            && (KilledDuring(s, cfg, steps, c.chromium) <==> u.aborts == t.aborts + 1)
            && (KilledDuring(s, cfg, steps, c.chromium) ==> u.pool == t.pool)
            && (!KilledDuring(s, cfg, steps, c.chromium) ==>
                  u.aborts == t.aborts &&
                  u.pool.sessions == t.pool.sessions + [NewSession(t.nextId, c.chromium, c.ttl, token, now)])
  {
    CallerWaits(s, cfg, steps, k);
    PresentUnlessKilled(s, cfg, steps, s.callers[k].chromium);
  }

  lemma AfterSnoc(s: System, cfg: Config, steps: seq<Step>)
    requires steps != []
    ensures After(s, cfg, steps) == Next(After(s, cfg, steps[..|steps| - 1]), cfg, steps[|steps| - 1])
  {
    var n := |steps| - 1;
    assert steps == steps[..n] + [steps[n]];
    AfterConcat(s, cfg, steps[..n], [steps[n]]);
    assert [steps[n]][1..] == [];
  }

  /** The process was killed at some point of the run so far. */
  ghost predicate WasKilled(s: System, cfg: Config, steps: seq<Step>, chromium: nat)
    decreases |steps|
  {
    steps != [] &&
    var n := |steps| - 1;
    WasKilled(s, cfg, steps[..n], chromium) || Kills(After(s, cfg, steps[..n]), steps[n], chromium)
  }

  /** The step binds a session for a caller whose process was killed before. */
  ghost predicate BindsKilled(start: System, cfg: Config, before: seq<Step>, step: Step) {
    var s := After(start, cfg, before);
    step.BindSession? && step.caller < |s.callers| && s.callers[step.caller].Pushed? &&
    WasKilled(start, cfg, before, s.callers[step.caller].chromium)
  }

  ghost predicate SomeBindsKilled(start: System, cfg: Config, steps: seq<Step>)
    decreases |steps|
  {
    steps != [] &&
    var n := |steps| - 1;
    SomeBindsKilled(start, cfg, steps[..n]) || BindsKilled(start, cfg, steps[..n], steps[n])
  }

  /** Killed processes are gone, and a caller that has pushed still has its process unless it was killed. */
  ghost predicate Traced(start: System, cfg: Config, steps: seq<Step>) {
    var s := After(start, cfg, steps);
    && Base(s)
    && (forall c: nat :: WasKilled(start, cfg, steps, c) ==> Gone(s, c))
    && (forall k :: 0 <= k < |s.callers| && s.callers[k].Pushed? ==>
          Present(s.pool, s.callers[k].chromium) || WasKilled(start, cfg, steps, s.callers[k].chromium))
    && (s.aborts > 0 <==> SomeBindsKilled(start, cfg, steps))
  }

  lemma StepKeepsPushed(s: System, cfg: Config, step: Step, k: nat)
    requires Base(s) && k < |Next(s, cfg, step).callers| && Next(s, cfg, step).callers[k].Pushed?
    ensures var c := Next(s, cfg, step).callers[k].chromium;
            || Present(Next(s, cfg, step).pool, c)
            || Kills(s, step, c)
            || (k < |s.callers| && s.callers[k].Pushed? && s.callers[k].chromium == c && !Present(s.pool, c))
  {
    var t := Next(s, cfg, step);
    var c := t.callers[k].chromium;
    if step.PushChromium? && step.caller == k && k < |s.callers| && s.callers[k].Landed? {
      assert t.pool.chromiums[|s.pool.chromiums|].id == c;
    } else if Present(s.pool, c) {
      LeavesIffKilled(s, cfg, step, c);
    }
  }

  lemma {:induction false} RunIsTraced(callers: nat, sweepers: nat, cfg: Config, steps: seq<Step>)
    ensures Traced(Start(callers, sweepers), cfg, steps)
    decreases |steps|
  {
    var start := Start(callers, sweepers);
    if steps != [] {
      var n := |steps| - 1;
      RunIsTraced(callers, sweepers, cfg, steps[..n]);
      AfterSnoc(start, cfg, steps);
      var s, t := After(start, cfg, steps[..n]), After(start, cfg, steps);
      NextKeepsBase(s, cfg, steps[n]);
      forall c: nat | WasKilled(start, cfg, steps, c)
        ensures Gone(t, c)
      {
        if Kills(s, steps[n], c) {
          KilledIsGone(s, cfg, steps[n], c);
        } else {
          GoneStays(s, cfg, steps[n], c);
        }
      }
      forall k | 0 <= k < |t.callers| && t.callers[k].Pushed?
        ensures Present(t.pool, t.callers[k].chromium) || WasKilled(start, cfg, steps, t.callers[k].chromium)
      {
        StepKeepsPushed(s, cfg, steps[n], k);
      }
      AbortsIffBindsKilled(start, cfg, steps[..n], steps[n]);
    }
  }

  lemma AbortsIffBindsKilled(start: System, cfg: Config, before: seq<Step>, step: Step)
    requires Traced(start, cfg, before)
    ensures var s := After(start, cfg, before);
            Next(s, cfg, step).aborts == s.aborts + if BindsKilled(start, cfg, before, step) then 1 else 0
  {
  }

  /** A run panics after a push exactly when it binds for a caller whose process a sweep had killed. */
  lemma AbortsIff(callers: nat, sweepers: nat, cfg: Config, steps: seq<Step>)
    ensures After(Start(callers, sweepers), cfg, steps).aborts > 0 <==>
            SomeBindsKilled(Start(callers, sweepers), cfg, steps)
  {
    RunIsTraced(callers, sweepers, cfg, steps);
  }

  // --- Orphans over a run ---

  /** The step kills a process that has sessions. */
  ghost predicate KillsInUse(s: System, step: Step) {
    exists i :: 0 <= i < |s.pool.chromiums| && Kills(s, step, s.pool.chromiums[i].id) &&
      s.pool.chromiums[i].sessions != []
  }

  lemma StepOrphansIff(s: System, cfg: Config, step: Step)
    requires Base(s) && NoOrphans(s.pool)
    ensures !NoOrphans(Next(s, cfg, step).pool) <==> KillsInUse(s, step)
  {
    match step
    case Release(sid, now) =>
      DropShrinks(s.pool, sid, now);
      ShrunkKeepsQuiet(s.pool, Drop(s.pool, sid, now), []);
    case SweepExpire(_, now, touch) =>
      ExpireExact(s.pool, now, touch);
      ShrunkKeepsQuiet(s.pool, Expire(s.pool, now, touch), []);
    case SweepSnapshot(_) =>
    case SweepApply(j) =>
      if j < |s.sweepers| && s.sweepers[j].Applying? && s.sweepers[j].plans != [] {
        var plan := s.sweepers[j].plans[0];
        if plan.Kill? {
          KillOrphansIff(s.pool, plan);
          forall i | 0 <= i < |s.pool.chromiums|
            ensures Kills(s, step, s.pool.chromiums[i].id) <==> s.pool.chromiums[i].id == plan.id
          {
          }
        } else {
          ApplyKeepsQuiet(s.pool, plan, []);
        }
      }
    case _ => CallerStepKeepsNoOrphans(s, cfg, step);
  }

  /** No state of the run has a record that names a removed process. */
  ghost predicate OrphanFree(s: System, cfg: Config, steps: seq<Step>)
    decreases |steps|
  {
    NoOrphans(s.pool) && (steps != [] ==> OrphanFree(Next(s, cfg, steps[0]), cfg, steps[1..]))
  }

  ghost predicate SomeKillInUse(s: System, cfg: Config, steps: seq<Step>)
    decreases |steps|
  {
    steps != [] && (KillsInUse(s, steps[0]) || SomeKillInUse(Next(s, cfg, steps[0]), cfg, steps[1..]))
  }

  lemma {:induction false} OrphanFreeFrom(s: System, cfg: Config, steps: seq<Step>)
    requires Base(s) && NoOrphans(s.pool)
    ensures OrphanFree(s, cfg, steps) <==> !SomeKillInUse(s, cfg, steps)
    decreases |steps|
  {
    if steps != [] {
      NextKeepsBase(s, cfg, steps[0]);
      StepOrphansIff(s, cfg, steps[0]);
      if !KillsInUse(s, steps[0]) {
        OrphanFreeFrom(Next(s, cfg, steps[0]), cfg, steps[1..]);
      }
    }
  }

  /** A run leaves some record pointing at a removed process exactly when it kills a process in use. */
  lemma OrphanFreeIff(callers: nat, sweepers: nat, cfg: Config, steps: seq<Step>)
    ensures OrphanFree(Start(callers, sweepers), cfg, steps) <==> !SomeKillInUse(Start(callers, sweepers), cfg, steps)
  {
    OrphanFreeFrom(Start(callers, sweepers), cfg, steps);
  }
}
