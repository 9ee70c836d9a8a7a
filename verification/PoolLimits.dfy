/**
 When the configured limits of the pool, the lookup after a launch and the
 session records can be relied on: exactly for which numbers of callers and
 which configurations each holds in every interleaved run.
 */
module PoolLimits {
  import opened Common
  import opened Pool
  import opened PoolRuns

  // --- Runs in which nothing is ever launched ---

  ghost predicate Untouched(s: System) {
    && s.pool == EMPTY && s.aborts == 0
    && forall k :: 0 <= k < |s.callers| ==> s.callers[k].Idle?
  }

  lemma {:induction false} NothingLaunched(s: System, cfg: Config, steps: seq<Step>)
    requires Untouched(s) && (|s.callers| == 0 || cfg.poolMax == 0)
    ensures Untouched(After(s, cfg, steps))
    decreases |steps|
  {
    if steps != [] {
      var t := Next(s, cfg, steps[0]);
      if steps[0].SweepApply? && t != s && s.sweepers[steps[0].sweeper].plans != [] {
        ApplyShape(s.pool, s.sweepers[steps[0].sweeper].plans[0]);
      }
      NothingLaunched(t, cfg, steps[1..]);
    }
  }

  // --- Building runs ---

  lemma AfterOne(s: System, cfg: Config, step: Step)
    ensures After(s, cfg, [step]) == Next(s, cfg, step)
  {
    assert [step][1..] == [];
  }

  /** Caller 0 has launched the first process and is held up before it binds. */
  ghost predicate FirstPushed(s: System, n: nat) {
    && s.pool == State([Chromium(0, Active, 0, 0, [])], [])
    && |s.callers| == n && n >= 1 && s.callers[0] == Pushed(0, 1)
    && (forall k :: 0 < k < n ==> s.callers[k].Idle?)
    && s.sweepers == [Resting] && s.nextId == 1 && s.aborts == 0
  }

  lemma FirstPush(n: nat, cfg: Config) returns (steps: seq<Step>)
    requires n >= 1 && cfg.poolMax >= 1
    ensures FirstPushed(After(Start(n, 1), cfg, steps), n) && AllAt(steps, 0)
  {
    steps := [Begin(0, 1, "", 0), LaunchReturns(0, true), PushChromium(0, 0)];
    var s0 := Start(n, 1);
    var s1 := Next(s0, cfg, steps[0]);
    var s2 := Next(s1, cfg, steps[1]);
    var s3 := Next(s2, cfg, steps[2]);
    assert s1.callers[0] == Launching(1) && s2.callers[0] == Landed(0, 1);
    assert s3.pool.chromiums == [Chromium(0, Active, 0, 0, [])];
    assert steps[1..] == [steps[1], steps[2]] && steps[1..][1..] == [steps[2]] && steps[1..][1..][1..] == [];
    assert After(s0, cfg, steps) == After(s1, cfg, steps[1..]) == After(s2, cfg, [steps[2]]) == After(s3, cfg, []);
  }

  /** No process takes another session. */
  ghost predicate Saturated(p: State, cfg: Config) {
    forall i :: 0 <= i < |p.chromiums| ==> !Usable(p.chromiums[i], cfg)
  }

  /** The last process alone may still take sessions. */
  ghost predicate OnlyLastUsable(p: State, cfg: Config) {
    && p.chromiums != [] && p.chromiums[|p.chromiums| - 1].mode.Active?
    && (forall i :: 0 <= i < |p.chromiums| - 1 ==> !Usable(p.chromiums[i], cfg))
  }

  /** An idle caller fills the last process up to the limit. */
  lemma {:induction false} Fill(s: System, cfg: Config, k: nat) returns (steps: seq<Step>)
    requires k < |s.callers| && s.callers[k].Idle? && OnlyLastUsable(s.pool, cfg)
    requires |s.pool.chromiums[|s.pool.chromiums| - 1].sessions| <= cfg.contextsMax + 1
    ensures var t := After(s, cfg, steps);
            var last := |s.pool.chromiums| - 1;
            && t.callers == s.callers && |t.pool.chromiums| == last + 1 && Saturated(t.pool, cfg)
            && t.pool.chromiums[last].id == s.pool.chromiums[last].id
            && (|s.pool.chromiums[last].sessions| <= cfg.contextsMax ==>
              |t.pool.chromiums[last].sessions| == cfg.contextsMax)
    decreases cfg.contextsMax + 1 - |s.pool.chromiums[|s.pool.chromiums| - 1].sessions|
  {
    var last := |s.pool.chromiums| - 1;
    if |s.pool.chromiums[last].sessions| >= cfg.contextsMax {
      steps := [];
    } else {
      assert Usable(s.pool.chromiums[last], cfg);
      assert FindWarmest(s.pool.chromiums, cfg) == Some(last);
      var step := Begin(k, 1, "", 0);
      var rest := Fill(Next(s, cfg, step), cfg, k);
      steps := [step] + rest;
      assert steps[1..] == rest;
    }
  }

  /** One caller launches a process of its own while all others are full. */
  lemma LaunchOne(s: System, cfg: Config, k: nat) returns (steps: seq<Step>)
    requires Base(s) && k < |s.callers| && s.callers[k].Idle? && Saturated(s.pool, cfg) &&
             |s.pool.chromiums| < cfg.poolMax
    ensures var t := After(s, cfg, steps);
            && t.callers == s.callers[k := Pushed(s.nextId, 1)]
            && t.pool == Push(s.pool, s.nextId, 0)
  {
    steps := [Begin(k, 1, "", 0), LaunchReturns(k, true), PushChromium(k, 0)];
    var s1 := Next(s, cfg, steps[0]);
    var s2 := Next(s1, cfg, steps[1]);
    assert s1.callers[k] == Launching(1) && s2.callers[k] == Landed(s.nextId, 1);
    assert steps[1..] == [steps[1], steps[2]] && steps[1..][1..] == [steps[2]];
    AfterOne(s2, cfg, steps[2]);
    assert After(s, cfg, steps) == After(s1, cfg, steps[1..]) == After(s2, cfg, [steps[2]]);
  }

  /** A caller that binds to a process it has just pushed. */
  lemma BindLast(s: System, cfg: Config, k: nat)
    requires Base(s) && k < |s.callers| && s.callers[k].Pushed? && s.pool.chromiums != []
    requires s.callers[k].chromium == s.pool.chromiums[|s.pool.chromiums| - 1].id
    ensures var t, last := Next(s, cfg, BindSession(k, "", 0)), |s.pool.chromiums| - 1;
            && t.callers == s.callers[k := Idle] && |t.pool.chromiums| == last + 1
            && (forall i :: 0 <= i < last ==> t.pool.chromiums[i] == s.pool.chromiums[i])
            && t.pool.chromiums[last].id == s.pool.chromiums[last].id
            && t.pool.chromiums[last].mode == s.pool.chromiums[last].mode
            && |t.pool.chromiums[last].sessions| == |s.pool.chromiums[last].sessions| + 1
  {
    assert Position(s.pool.chromiums, s.callers[k].chromium) == Some(|s.pool.chromiums| - 1);
  }

  ghost predicate AllIdle(s: System) {
    forall k :: 0 <= k < |s.callers| ==> s.callers[k].Idle?
  }

  /** One more full process, with every caller idle again. */
  lemma AddFull(s: System, cfg: Config) returns (steps: seq<Step>)
    requires Base(s) && AllIdle(s) && |s.callers| >= 1 && Saturated(s.pool, cfg) && |s.pool.chromiums| < cfg.poolMax
    ensures var t := After(s, cfg, steps);
            && Base(t) && t.callers == s.callers && Saturated(t.pool, cfg) &&
              |t.pool.chromiums| == |s.pool.chromiums| + 1
  {
    var launch := LaunchOne(s, cfg, 0);
    var s1 := After(s, cfg, launch);
    RunKeepsBase(s, cfg, launch);
    var bind := BindSession(0, "", 0);
    BindLast(s1, cfg, 0);
    AfterOne(s1, cfg, bind);
    AfterConcat(s, cfg, launch, [bind]);
    var s2 := Next(s1, cfg, bind);
    assert s2.callers == s.callers;
    var fill := Fill(s2, cfg, 0);
    AfterConcat(s, cfg, launch + [bind], fill);
    steps := launch + [bind] + fill;
    RunKeepsBase(s, cfg, steps);
  }

  lemma {:induction false} AddManyFull(s: System, cfg: Config, m: nat) returns (steps: seq<Step>)
    requires Base(s) && AllIdle(s) && |s.callers| >= 1 && Saturated(s.pool, cfg) &&
             |s.pool.chromiums| + m <= cfg.poolMax
    ensures var t := After(s, cfg, steps);
            && Base(t) && t.callers == s.callers && Saturated(t.pool, cfg) &&
              |t.pool.chromiums| == |s.pool.chromiums| + m
    decreases m
  {
    if m == 0 {
      steps := [];
    } else {
      var one := AddFull(s, cfg);
      var rest := AddManyFull(After(s, cfg, one), cfg, m - 1);
      AfterConcat(s, cfg, one, rest);
      steps := one + rest;
    }
  }

  /** All callers from `k` on find no usable process and start a launch, before any of them lands. */
  lemma {:induction false} BeginRest(s: System, cfg: Config, k: nat) returns (steps: seq<Step>)
    requires k <= |s.callers| && Saturated(s.pool, cfg) && |s.pool.chromiums| < cfg.poolMax
    requires forall j :: 0 <= j < k ==> s.callers[j].Launching?
    requires forall j :: k <= j < |s.callers| ==> s.callers[j].Idle?
    ensures var t := After(s, cfg, steps);
            t.pool == s.pool && |t.callers| == |s.callers| && forall j :: 0 <= j < |t.callers| ==>
              t.callers[j].Launching?
    decreases |s.callers| - k
  {
    if k == |s.callers| {
      steps := [];
    } else {
      var step := Begin(k, 1, "", 0);
      var rest := BeginRest(Next(s, cfg, step), cfg, k + 1);
      steps := [step] + rest;
      assert steps[1..] == rest;
    }
  }

  /** All of them land and push, whatever the limit says by then. */
  lemma {:induction false} PushRest(s: System, cfg: Config, k: nat) returns (steps: seq<Step>)
    requires k <= |s.callers| && forall j :: k <= j < |s.callers| ==> s.callers[j].Launching?
    ensures |After(s, cfg, steps).pool.chromiums| == |s.pool.chromiums| + |s.callers| - k
    decreases |s.callers| - k
  {
    if k == |s.callers| {
      steps := [];
    } else {
      var land, push := LaunchReturns(k, true), PushChromium(k, 0);
      var s1 := Next(s, cfg, land);
      var s2 := Next(s1, cfg, push);
      assert s1.callers[k].Landed?;
      var rest := PushRest(s2, cfg, k + 1);
      steps := [land, push] + rest;
      assert steps[1..] == [push] + rest && steps[1..][1..] == rest;
      assert After(s, cfg, steps) == After(s1, cfg, [push] + rest) == After(s2, cfg, rest);
    }
  }

  /** The bound on processes is attained for every limit and every number of callers. */
  lemma OvershootIsReached(n: nat, cfg: Config) returns (steps: seq<Step>)
    requires n >= 1 && cfg.poolMax >= 1
    ensures |After(Start(n, 0), cfg, steps).pool.chromiums| == cfg.poolMax + n - 1
  {
    var s0 := Start(n, 0);
    var full := AddManyFull(s0, cfg, cfg.poolMax - 1);
    var s1 := After(s0, cfg, full);
    var begins := BeginRest(s1, cfg, 0);
    var s2 := After(s1, cfg, begins);
    var pushes := PushRest(s2, cfg, 0);
    AfterConcat(s0, cfg, full, begins);
    AfterConcat(s0, cfg, full + begins, pushes);
    steps := full + begins + pushes;
  }

  // --- The process limit ---

  /** With `n` callers no run ever has more processes than configured. */
  ghost predicate PoolMaxKept(n: nat, cfg: Config) {
    forall sweepers, steps :: |After(Start(n, sweepers), cfg, steps).pool.chromiums| <= cfg.poolMax
  }

  lemma PoolMaxIff(n: nat, cfg: Config)
    ensures PoolMaxKept(n, cfg) <==> n <= 1 || cfg.poolMax == 0
  {
    if n == 0 || cfg.poolMax == 0 {
      forall sweepers, steps
        ensures |After(Start(n, sweepers), cfg, steps).pool.chromiums| <= cfg.poolMax
      {
        NothingLaunched(Start(n, sweepers), cfg, steps);
      }
    } else if n == 1 {
      forall sweepers, steps
        ensures |After(Start(n, sweepers), cfg, steps).pool.chromiums| <= cfg.poolMax
      {
        CapacityUnderConcurrency(1, sweepers, cfg, steps);
      }
    } else {
      var steps := OvershootIsReached(n, cfg);
      assert |After(Start(n, 0), cfg, steps).pool.chromiums| > cfg.poolMax;
    }
  }

  // --- The host limit ---

  ghost predicate WithinHostLimit(p: State, cfg: Config) {
    forall i :: 0 <= i < |p.chromiums| ==> |p.chromiums[i].sessions| <= cfg.contextsMax
  }

  /** With `n` callers no process of any run hosts more sessions than configured. */
  ghost predicate HostLimitKept(n: nat, cfg: Config) {
    forall sweepers, steps :: WithinHostLimit(After(Start(n, sweepers), cfg, steps).pool, cfg)
  }

  /** While one caller is held up before it binds, another fills its process; a zero limit needs no other. */
  lemma HostOvershootIsReached(n: nat, cfg: Config) returns (steps: seq<Step>)
    requires cfg.poolMax >= 1 && (n >= 2 || (n == 1 && cfg.contextsMax == 0))
    ensures var p := After(Start(n, 1), cfg, steps).pool;
            p.chromiums != [] && |p.chromiums[0].sessions| == cfg.contextsMax + 1
  {
    var s0 := Start(n, 1);
    var first := FirstPush(n, cfg);
    var s1 := After(s0, cfg, first);
    var fill := [];
    if n >= 2 {
      fill := Fill(s1, cfg, 1);
    }
    var s2 := After(s1, cfg, fill);
    AfterConcat(s0, cfg, first, fill);
    RunKeepsBase(s0, cfg, first + fill);
    var bind := BindSession(0, "", 0);
    BindLast(s2, cfg, 0);
    AfterOne(s2, cfg, bind);
    AfterConcat(s0, cfg, first + fill, [bind]);
    steps := first + fill + [bind];
  }

  lemma HostLimitIff(n: nat, cfg: Config)
    ensures HostLimitKept(n, cfg) <==> n == 0 || cfg.poolMax == 0 || (n == 1 && cfg.contextsMax >= 1)
  {
    if n == 0 || cfg.poolMax == 0 {
      forall sweepers, steps
        ensures WithinHostLimit(After(Start(n, sweepers), cfg, steps).pool, cfg)
      {
        NothingLaunched(Start(n, sweepers), cfg, steps);
      }
    } else if n == 1 && cfg.contextsMax >= 1 {
      forall sweepers, steps
        ensures WithinHostLimit(After(Start(n, sweepers), cfg, steps).pool, cfg)
      {
        RunKeepsOneCallerBounded(Start(1, sweepers), cfg, steps);
      }
    } else {
      var steps := HostOvershootIsReached(n, cfg);
      assert !WithinHostLimit(After(Start(n, 1), cfg, steps).pool, cfg);
    }
  }

  // --- The lookup after the push, and the session records ---

  /** The clock reading a step acts on, if it reads the clock. */
  function Reading(step: Step): Option<int> {
    match step
    case Begin(_, _, _, now) => Some(now)
    case PushChromium(_, now) => Some(now)
    case BindSession(_, _, now) => Some(now)
    case Release(_, now) => Some(now)
    case SweepExpire(_, now, _) => Some(now)
    case _ => None
  }

  /** The clock never goes back. */
  ghost predicate ClockForward(steps: seq<Step>) {
    forall i, j :: 0 <= i < j < |steps| && Reading(steps[i]).Some? && Reading(steps[j]).Some? ==>
      Reading(steps[i]).value <= Reading(steps[j]).value
  }

  ghost predicate AllAt(steps: seq<Step>, now: int) {
    forall i :: 0 <= i < |steps| && Reading(steps[i]).Some? ==> Reading(steps[i]).value == now
  }

  lemma ThenLater(early: seq<Step>, early': seq<Step>, now: int, late: seq<Step>, late': seq<Step>, later: int)
    requires AllAt(early, now) && AllAt(late, later) && AllAt(late', later) && now <= later && early' == early + late
    ensures ClockForward(early' + late')
  {
    var steps := early' + late';
    forall i | 0 <= i < |steps| && Reading(steps[i]).Some?
      ensures Reading(steps[i]).value == if i < |early| then now else later
    {
      if i < |early| {
        assert steps[i] == early[i];
      } else if i < |early'| {
        assert steps[i] == late[i - |early|];
      } else {
        assert steps[i] == late'[i - |early'|];
      }
    }
  }

  /** A sweep that runs late enough plans to kill the one empty process. */
  lemma LateSnapshot(s: System, n: nat, cfg: Config) returns (t: System, steps: seq<Step>)
    requires FirstPushed(s, n)
    ensures t == After(s, cfg, steps) && t.pool == s.pool && t.callers == s.callers && t.nextId == 1 && t.aborts == 0
    ensures exists reason :: t.sweepers == [Applying([Kill(0, reason)])]
    ensures AllAt(steps, cfg.idleSeconds * NANOS)
  {
    var late := cfg.idleSeconds * NANOS;
    steps := [SweepExpire(0, late, late), SweepSnapshot(0)];
    var s1 := Next(s, cfg, steps[0]);
    assert s1.pool == s.pool;
    t := Next(s1, cfg, steps[1]);
    var snap := Snapshots(s.pool.chromiums);
    assert Seconds(late - 0) == cfg.idleSeconds;
    assert snap[..0] == [] && Plans(snap[..0], cfg, late) == [];
    assert |snap| == 1 && PlanFor(snap[0], cfg, late).Some?;
    assert Plans(snap, cfg, late) == [PlanFor(snap[0], cfg, late).value];
    assert t.sweepers == [Applying([Kill(0, PlanFor(snap[0], cfg, late).value.reason)])];
    assert steps[1..] == [steps[1]] && steps[1..][1..] == [];
    assert After(s, cfg, steps) == After(s1, cfg, steps[1..]) == t;
  }

  /** A caller held up until its process counts as idle or aged loses it to a sweep and panics. */
  lemma ExpectCanFail(n: nat, cfg: Config) returns (steps: seq<Step>)
    requires n >= 1 && cfg.poolMax >= 1
    ensures ClockForward(steps) && After(Start(n, 1), cfg, steps).aborts == 1
  {
    var late := cfg.idleSeconds * NANOS;
    var first := FirstPush(n, cfg);
    var s := After(Start(n, 1), cfg, first);
    var t, sweep := LateSnapshot(s, n, cfg);
    var rest := [SweepApply(0), BindSession(0, "", late)];
    var t1 := Next(t, cfg, rest[0]);
    assert t1.pool.chromiums == [];
    AfterOne(t1, cfg, rest[1]);
    assert rest[1..] == [rest[1]];
    assert After(t, cfg, rest) == After(t1, cfg, [rest[1]]) == Next(t1, cfg, rest[1]);
    AfterConcat(Start(n, 1), cfg, first, sweep);
    AfterConcat(Start(n, 1), cfg, first + sweep, rest);
    steps := first + sweep + rest;
    ThenLater(first, first + sweep, 0, sweep, rest, late);
  }

  /** A session bound between a sweep's snapshot and its kill loses its process. */
  lemma OrphanIsReached(n: nat, cfg: Config) returns (steps: seq<Step>)
    requires n >= 1 && cfg.poolMax >= 1
    ensures ClockForward(steps) && !NoOrphans(After(Start(n, 1), cfg, steps).pool)
  {
    var late := cfg.idleSeconds * NANOS;
    var first := FirstPush(n, cfg);
    var s := After(Start(n, 1), cfg, first);
    var t, sweep := LateSnapshot(s, n, cfg);
    var rest := [BindSession(0, "", late), SweepApply(0)];
    var t1 := Next(t, cfg, rest[0]);
    assert t1.pool.sessions == [NewSession(1, 0, 1, "", late)];
    assert t1.pool.chromiums[0].id == 0 && |t1.pool.chromiums| == 1;
    var t2 := Next(t1, cfg, rest[1]);
    assert t2.pool.chromiums == [] && t2.pool.sessions == t1.pool.sessions;
    assert !NoOrphans(t2.pool) by {
      assert !Present(t2.pool, t2.pool.sessions[0].chromium);
    }
    AfterOne(t1, cfg, rest[1]);
    assert rest[1..] == [rest[1]];
    assert After(t, cfg, rest) == After(t1, cfg, [rest[1]]) == t2;
    AfterConcat(Start(n, 1), cfg, first, sweep);
    AfterConcat(Start(n, 1), cfg, first + sweep, rest);
    steps := first + sweep + rest;
    ThenLater(first, first + sweep, 0, sweep, rest, late);
  }

  /** No run panics; `OnClock` considers only runs whose clock never goes back. */
  ghost predicate NeverAborts(n: nat, cfg: Config) {
    forall sweepers, steps :: After(Start(n, sweepers), cfg, steps).aborts == 0
  }

  ghost predicate NeverAbortsOnClock(n: nat, cfg: Config) {
    forall sweepers, steps :: ClockForward(steps) ==> After(Start(n, sweepers), cfg, steps).aborts == 0
  }

  ghost predicate NeverOrphans(n: nat, cfg: Config) {
    forall sweepers, steps :: NoOrphans(After(Start(n, sweepers), cfg, steps).pool)
  }

  ghost predicate NeverOrphansOnClock(n: nat, cfg: Config) {
    forall sweepers, steps :: ClockForward(steps) ==> NoOrphans(After(Start(n, sweepers), cfg, steps).pool)
  }

  /** The lookup after the push is safe in all runs only where nothing can be launched. */
  lemma NeverAbortsIff(n: nat, cfg: Config)
    ensures NeverAborts(n, cfg) <==> n == 0 || cfg.poolMax == 0
    ensures NeverAbortsOnClock(n, cfg) <==> n == 0 || cfg.poolMax == 0
  {
    if n == 0 || cfg.poolMax == 0 {
      forall sweepers, steps
        ensures After(Start(n, sweepers), cfg, steps).aborts == 0
      {
        NothingLaunched(Start(n, sweepers), cfg, steps);
      }
    } else {
      var abort := ExpectCanFail(n, cfg);
      assert ClockForward(abort) && After(Start(n, 1), cfg, abort).aborts != 0;
    }
  }

  /** The session records never name a removed process only where nothing can be launched. */
  lemma NeverOrphansIff(n: nat, cfg: Config)
    ensures NeverOrphans(n, cfg) <==> n == 0 || cfg.poolMax == 0
    ensures NeverOrphansOnClock(n, cfg) <==> n == 0 || cfg.poolMax == 0
  {
    if n == 0 || cfg.poolMax == 0 {
      forall sweepers, steps
        ensures NoOrphans(After(Start(n, sweepers), cfg, steps).pool)
      {
        NothingLaunched(Start(n, sweepers), cfg, steps);
      }
    } else {
      var orphan := OrphanIsReached(n, cfg);
      assert ClockForward(orphan) && !NoOrphans(After(Start(n, 1), cfg, orphan).pool);
    }
  }
}
