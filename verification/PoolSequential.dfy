/**
 The pool when its operations do not overlap: whole `acquire`, `release` and
 `sweep` calls one after another on a clock that never goes back, and the
 object that carries them out.
 */
module PoolSequential {
  import opened Common
  import opened Pool
  import Runs = PoolRuns

  datatype Error =
    | InvalidRequest | PoolExhausted | LaunchFailed
    | SessionNotFound | SessionExpired | InvalidToken | ChromiumGone

  datatype Request = Request(ttl: nat, headed: bool, maxBytes: nat, token: string)

  predicate Acceptable(req: Request, cfg: Config) {
    (req.headed ==> cfg.headedDefault) && 0 < req.ttl <= MAX_TTL_SECONDS && req.maxBytes > 0
  }

  /** One whole `acquire`; `launched` is the process the launcher returns, if it is asked and succeeds. */
  function Acquire(p: State, cfg: Config, req: Request, launched: Option<nat>, sid: nat, launchNow: int, now: int)
    : (State, Result<Session, Error>)
  {
    if !Acceptable(req, cfg) then (p, Err(InvalidRequest)) else
    match FindWarmest(p.chromiums, cfg)
    case Some(i) =>
      var r := Runs.NewSession(sid, p.chromiums[i].id, req.ttl, req.token, now);
      (Bind(p, i, r), Ok(r))
    case None =>
      if |p.chromiums| >= cfg.poolMax then (p, Err(PoolExhausted))
      else if launched.None? then (p, Err(LaunchFailed))
      else
        var q := Push(p, launched.value, launchNow);
        var r := Runs.NewSession(sid, launched.value, req.ttl, req.token, now);
        (Bind(q, |p.chromiums|, r), Ok(r))
  }

  /** Which requests fail, and how; a failed request changes nothing and a good one adds exactly its session. */
  lemma AcquireOutcome(p: State, cfg: Config, req: Request, launched: Option<nat>, sid: nat, launchNow: int, now: int)
    ensures var (q, r) := Acquire(p, cfg, req, launched, sid, launchNow, now);
            var full := forall i :: 0 <= i < |p.chromiums| ==>
              p.chromiums[i].mode.Draining? || |p.chromiums[i].sessions| >= cfg.contextsMax;
            && (r == Err(InvalidRequest) <==>
                  (req.headed && !cfg.headedDefault) || req.ttl == 0 || req.ttl > 3600 || req.maxBytes == 0)
            && (r == Err(PoolExhausted) <==> Acceptable(req, cfg) && full && |p.chromiums| >= cfg.poolMax)
            && (r == Err(LaunchFailed) <==>
                  Acceptable(req, cfg) && full && |p.chromiums| < cfg.poolMax && launched.None?)
            && (r.Err? ==> q == p)
            && (r.Ok? ==> q.sessions == p.sessions + [r.value] && Present(q, r.value.chromium))
            && (r.Ok? ==> r.value.expiresAt - now == req.ttl * NANOS)
            && (r.Ok? && !full ==>
                  forall i :: 0 <= i < |p.chromiums| && Usable(p.chromiums[i], cfg) ==>
                    exists k :: 0 <= k < |p.chromiums| && p.chromiums[k].id == r.value.chromium &&
                      |p.chromiums[i].sessions| <= |p.chromiums[k].sessions|)
  {
    var (q, r) := Acquire(p, cfg, req, launched, sid, launchNow, now);
    var at := FindWarmest(p.chromiums, cfg);
    assert at.None? <==> forall i :: 0 <= i < |p.chromiums| ==>
      p.chromiums[i].mode.Draining? || |p.chromiums[i].sessions| >= cfg.contextsMax by {
      assert forall i :: 0 <= i < |p.chromiums| ==>
        (Usable(p.chromiums[i], cfg) <==>
          !(p.chromiums[i].mode.Draining? || |p.chromiums[i].sessions| >= cfg.contextsMax));
    }
    if r.Ok? {
      assert q.chromiums[if at.Some? then at.value else |p.chromiums|].id == r.value.chromium;
    }
  }

  /**
   What a good acquire writes: the new session's record, on a warm process that becomes the last used one and
   lists it last, or alone on the launched process at the end of the pool; every other process stays as it is.
   */
  lemma AcquireBinds(p: State, cfg: Config, req: Request, launched: Option<nat>, sid: nat, launchNow: int, now: int)
    requires Acquire(p, cfg, req, launched, sid, launchNow, now).1.Ok?
    ensures var (q, r) := Acquire(p, cfg, req, launched, sid, launchNow, now);
            && r.value == Session(sid, req.token, r.value.chromium, now, now + req.ttl * NANOS)
            && ((exists k :: 0 <= k < |p.chromiums| && Usable(p.chromiums[k], cfg)) ==>
                  |q.chromiums| == |p.chromiums| &&
                  exists k :: 0 <= k < |p.chromiums| && p.chromiums[k].id == r.value.chromium &&
                    q.chromiums[k] ==
                      p.chromiums[k].(sessions := p.chromiums[k].sessions + [sid], lastActiveAt := now) &&
                    forall i :: 0 <= i < |p.chromiums| && i != k ==> q.chromiums[i] == p.chromiums[i])
            && ((forall k :: 0 <= k < |p.chromiums| ==> !Usable(p.chromiums[k], cfg)) ==>
                  launched == Some(r.value.chromium) &&
                  q.chromiums == p.chromiums + [Chromium(r.value.chromium, Active, launchNow, now, [sid])])
  {
    var (q, r) := Acquire(p, cfg, req, launched, sid, launchNow, now);
    var at := FindWarmest(p.chromiums, cfg);
    if at.Some? {
      assert p.chromiums[at.value].id == r.value.chromium;
    } else {
      assert [] + [sid] == [sid];
    }
  }

  lemma DropUndoesBind(p: State, i: nat, r: Session, now: int)
    requires Coherent(p) && i < |p.chromiums| && r.chromium == p.chromiums[i].id
    requires forall j :: 0 <= j < |p.sessions| ==> p.sessions[j].id != r.id
    ensures Drop(Bind(p, i, r), r.id, now) == State(p.chromiums[i := p.chromiums[i].(lastActiveAt := now)], p.sessions)
  {
    var q := Bind(p, i, r);
    assert q.sessions[|p.sessions|] == r && q.chromiums[i].id == r.chromium;
    assert SessionAt(q.sessions, r.id) == Some(|p.sessions|);
    assert RemoveAt(q.sessions, |p.sessions|) == p.sessions;
    assert Position(q.chromiums, r.chromium) == Some(i);
    var before := p.chromiums[i].sessions;
    if r.id in before {
      IdsOnMembers(p.sessions, r.chromium, r.id);
      assert false;
    }
    WithoutAbsent(before, r.id);
    assert (before + [r.id])[..|before|] == before;
    assert Without(before + [r.id], r.id) == before;
  }

  /**
   Releasing a session just acquired gives back the pool, but for the time its process was last
   used, and a process launched for it.
   */
  lemma ReleaseUndoesAcquire(p: State, cfg: Config, req: Request, launched: Option<nat>, sid: nat, launchNow: int,
                             now: int, later: int)
    requires Coherent(p) && forall j :: 0 <= j < |p.sessions| ==> p.sessions[j].id != sid
    requires launched.Some? ==> !Present(p, launched.value) && forall j :: 0 <= j < |p.sessions| ==>
             p.sessions[j].chromium != launched.value
    requires Acquire(p, cfg, req, launched, sid, launchNow, now).1.Ok?
    ensures var u := Drop(Acquire(p, cfg, req, launched, sid, launchNow, now).0, sid, later);
            var at := FindWarmest(p.chromiums, cfg);
            && u.sessions == p.sessions
            && u.chromiums == if at.Some? then p.chromiums[at.value := p.chromiums[at.value].(lastActiveAt := later)]
                              else p.chromiums + [Chromium(launched.value, Active, launchNow, later, [])]
  {
    var at := FindWarmest(p.chromiums, cfg);
    if at.Some? {
      DropUndoesBind(p, at.value, Runs.NewSession(sid, p.chromiums[at.value].id, req.ttl, req.token, now), later);
    } else {
      PushKeepsCoherent(p, launched.value, launchNow);
      DropUndoesBind(Push(p, launched.value, launchNow), |p.chromiums|,
        Runs.NewSession(sid, launched.value, req.ttl, req.token, now), later);
    }
  }

  function Sweep(p: State, cfg: Config, now: int, touch: int): State {
    Recycle(Expire(p, now, touch), cfg, now)
  }

  datatype Op =
    | AcquireOp(req: Request, launchOk: bool, launchNow: int, now: int)
    | ReleaseOp(session: nat, now: int)
    | SweepOp(now: int, touch: int)

  datatype World = World(pool: State, nextId: nat)

  const START := World(EMPTY, 0)

  function Next(w: World, cfg: Config, op: Op): World {
    match op
    case AcquireOp(req, ok, launchNow, now) =>
      var launches := Acceptable(req, cfg) && FindWarmest(w.pool.chromiums, cfg).None? &&
        |w.pool.chromiums| < cfg.poolMax && ok;
      var sid := if launches then w.nextId + 1 else w.nextId;
      var (p, r) := Acquire(w.pool, cfg, req, if ok then Some(w.nextId) else None, sid, launchNow, now);
      World(p, if r.Ok? then sid + 1 else w.nextId)
    case ReleaseOp(sid, now) => World(Drop(w.pool, sid, now), w.nextId)
    case SweepOp(now, touch) => World(Sweep(w.pool, cfg, now, touch), w.nextId)
  }

  function After(w: World, cfg: Config, ops: seq<Op>): World
    decreases |ops|
  {
    if ops == [] then w else After(Next(w, cfg, ops[0]), cfg, ops[1..])
  }

  // --- Sequential calls are runs of the interleaved machine ---

  ghost function Alone(w: World, aborts: nat): Runs.System {
    Runs.System(w.pool, [Runs.Idle], [Runs.Resting], w.nextId, aborts)
  }

  ghost function Applies(n: nat): seq<Runs.Step> {
    if n == 0 then [] else [Runs.SweepApply(0)] + Applies(n - 1)
  }

  /** The steps of one whole call by the only caller or the only sweeper. */
  ghost function StepsOf(w: World, cfg: Config, op: Op): seq<Runs.Step> {
    match op
    case AcquireOp(req, ok, launchNow, now) =>
      if !Acceptable(req, cfg) then []
      else if FindWarmest(w.pool.chromiums, cfg).Some? || |w.pool.chromiums| >= cfg.poolMax
      then [Runs.Begin(0, req.ttl, req.token, now)]
      else [Runs.Begin(0, req.ttl, req.token, now), Runs.LaunchReturns(0, ok)] +
           if ok then [Runs.PushChromium(0, launchNow), Runs.BindSession(0, req.token, now)] else []
    case ReleaseOp(sid, now) => [Runs.Release(sid, now)]
    case SweepOp(now, touch) =>
      [Runs.SweepExpire(0, now, touch), Runs.SweepSnapshot(0)] +
      Applies(|Plans(Snapshots(Expire(w.pool, now, touch).chromiums), cfg, now)| + 1)
  }

  lemma {:induction false} AppliesRun(p: State, nextId: nat, cfg: Config, plans: seq<Plan>)
    ensures Runs.After(Runs.System(p, [Runs.Idle], [Runs.Applying(plans)], nextId, 0), cfg, Applies(|plans| + 1)) ==
            Alone(World(ApplyAll(p, plans), nextId), 0)
    decreases |plans|
  {
    var s := Runs.System(p, [Runs.Idle], [Runs.Applying(plans)], nextId, 0);
    var t := Runs.Next(s, cfg, Runs.SweepApply(0));
    assert Applies(|plans| + 1)[1..] == Applies(|plans|);
    if plans == [] {
      assert t == Alone(World(p, nextId), 0);
    } else {
      assert t == Runs.System(Apply(p, plans[0]), [Runs.Idle], [Runs.Applying(plans[1..])], nextId, 0);
      AppliesRun(Apply(p, plans[0]), nextId, cfg, plans[1..]);
    }
  }

  lemma RunTwo(s: Runs.System, cfg: Config, a: Runs.Step, b: Runs.Step)
    ensures Runs.After(s, cfg, [a]) == Runs.Next(s, cfg, a)
    ensures Runs.After(s, cfg, [a, b]) == Runs.Next(Runs.Next(s, cfg, a), cfg, b)
  {
    assert [a, b][1..] == [b] && [b][1..] == [] && [a][1..] == [];
    assert Runs.After(s, cfg, [a, b]) == Runs.After(Runs.Next(s, cfg, a), cfg, [b]);
  }

  lemma {:induction false} PositionOfLast(cs: seq<Chromium>, c: Chromium)
    requires forall i :: 0 <= i < |cs| ==> cs[i].id != c.id
    ensures Position(cs + [c], c.id) == Some(|cs|)
  {
    if cs != [] {
      assert (cs + [c])[1..] == cs[1..] + [c];
      PositionOfLast(cs[1..], c);
    }
  }

  lemma AcquireIsARun(w: World, cfg: Config, op: Op)
    requires op.AcquireOp? && Runs.Base(Alone(w, 0))
    ensures Runs.After(Alone(w, 0), cfg, StepsOf(w, cfg, op)) == Alone(Next(w, cfg, op), 0)
  {
    var s := Alone(w, 0);
    var begin := Runs.Begin(0, op.req.ttl, op.req.token, op.now);
    var launch := Runs.LaunchReturns(0, op.launchOk);
    if Acceptable(op.req, cfg) {
      RunTwo(s, cfg, begin, launch);
      if FindWarmest(w.pool.chromiums, cfg).None? && |w.pool.chromiums| < cfg.poolMax {
        var s1 := Runs.Next(s, cfg, begin);
        assert s1.callers == [Runs.Launching(op.req.ttl)];
        var s2 := Runs.Next(s1, cfg, launch);
        if op.launchOk {
          assert s2.callers == [Runs.Landed(w.nextId, op.req.ttl)];
          var push, bind := Runs.PushChromium(0, op.launchNow), Runs.BindSession(0, op.req.token, op.now);
          var s3 := Runs.Next(s2, cfg, push);
          assert s3.callers == [Runs.Pushed(w.nextId, op.req.ttl)];
          PositionOfLast(w.pool.chromiums, Chromium(w.nextId, Active, op.launchNow, op.launchNow, []));
          RunTwo(s2, cfg, push, bind);
          Runs.AfterConcat(s, cfg, [begin, launch], [push, bind]);
          assert Runs.Next(s3, cfg, bind).callers == [Runs.Idle];
        } else {
          assert s2.callers == [Runs.Idle];
          assert [begin, launch] + [] == [begin, launch];
        }
      }
    }
  }

  /** Every whole call takes the machine from rest to rest, with the same pool. */
  lemma CallIsARun(w: World, cfg: Config, op: Op)
    requires Runs.Base(Alone(w, 0))
    ensures Runs.After(Alone(w, 0), cfg, StepsOf(w, cfg, op)) == Alone(Next(w, cfg, op), 0)
  {
    var s := Alone(w, 0);
    match op
    case AcquireOp(_, _, _, _) => AcquireIsARun(w, cfg, op);
    case ReleaseOp(sid, now) => RunTwo(s, cfg, Runs.Release(sid, now), Runs.Release(sid, now));
    case SweepOp(now, touch) =>
      var expire, snapshot := Runs.SweepExpire(0, now, touch), Runs.SweepSnapshot(0);
      var q := Expire(w.pool, now, touch);
      var plans := Plans(Snapshots(q.chromiums), cfg, now);
      RunTwo(s, cfg, expire, snapshot);
      assert Runs.Next(s, cfg, expire).sweepers == [Runs.Expired(now)];
      assert Runs.Next(Runs.Next(s, cfg, expire), cfg, snapshot).sweepers == [Runs.Applying(plans)];
      AppliesRun(q, w.nextId, cfg, plans);
      Runs.AfterConcat(s, cfg, [expire, snapshot], Applies(|plans| + 1));
  }

  ghost predicate Steady(w: World, cfg: Config) {
    var s := Alone(w, 0);
    Runs.Base(s) && Runs.PoolBounded(s, cfg) && Runs.HostsBounded(s, cfg) && NoOrphans(w.pool) &&
    (cfg.contextsMax >= 1 ==> Runs.OneCallerBounded(s, cfg))
  }

  lemma {:induction false} AppliesAvoid(s: Runs.System, cfg: Config, n: nat)
    ensures Runs.AcquiresAvoidSweeps(s, cfg, Applies(n))
    decreases n
  {
    if n > 0 {
      assert Applies(n)[1..] == Applies(n - 1);
      AppliesAvoid(Runs.Next(s, cfg, Runs.SweepApply(0)), cfg, n - 1);
    }
  }

  lemma CallAvoidsSweeps(w: World, cfg: Config, op: Op)
    ensures Runs.AcquiresAvoidSweeps(Alone(w, 0), cfg, StepsOf(w, cfg, op))
  {
    var s, steps := Alone(w, 0), StepsOf(w, cfg, op);
    if op.SweepOp? {
      var n := |Plans(Snapshots(Expire(w.pool, op.now, op.touch).chromiums), cfg, op.now)| + 1;
      var s1 := Runs.Next(s, cfg, steps[0]);
      assert steps[1..] == [Runs.SweepSnapshot(0)] + Applies(n);
      assert steps[1..][1..] == Applies(n);
      AppliesAvoid(Runs.Next(s1, cfg, Runs.SweepSnapshot(0)), cfg, n);
    } else {
      CallerRunAvoids(s, cfg, steps);
    }
  }

  lemma {:induction false} CallerRunAvoids(s: Runs.System, cfg: Config, steps: seq<Runs.Step>)
    requires s.sweepers == [Runs.Resting]
    requires forall i :: 0 <= i < |steps| ==> !steps[i].SweepExpire?
    ensures Runs.AcquiresAvoidSweeps(s, cfg, steps)
    decreases |steps|
  {
    if steps != [] {
      CallerRunAvoids(Runs.Next(s, cfg, steps[0]), cfg, steps[1..]);
    }
  }

  lemma NextKeepsSteady(w: World, cfg: Config, op: Op)
    requires Steady(w, cfg)
    ensures Steady(Next(w, cfg, op), cfg)
  {
    var s, steps := Alone(w, 0), StepsOf(w, cfg, op);
    CallIsARun(w, cfg, op);
    CallAvoidsSweeps(w, cfg, op);
    Runs.RunKeepsBase(s, cfg, steps);
    Runs.RunKeepsBounds(s, cfg, steps);
    Runs.RunKeepsQuiet(s, cfg, steps);
    if cfg.contextsMax >= 1 {
      Runs.RunKeepsOneCallerBounded(s, cfg, steps);
    }
  }

  lemma {:induction false} RunKeepsSteady(w: World, cfg: Config, ops: seq<Op>)
    requires Steady(w, cfg)
    ensures Steady(After(w, cfg, ops), cfg)
    decreases |ops|
  {
    if ops != [] {
      NextKeepsSteady(w, cfg, ops[0]);
      RunKeepsSteady(Next(w, cfg, ops[0]), cfg, ops[1..]);
    }
  }

  /** Sequential calls keep both configured limits and never strand a session record. */
  lemma SequentialLimits(cfg: Config, ops: seq<Op>)
    ensures var p := After(START, cfg, ops).pool;
            && |p.chromiums| <= cfg.poolMax
            && (cfg.contextsMax >= 1 ==>
                  forall i :: 0 <= i < |p.chromiums| ==> |p.chromiums[i].sessions| <= cfg.contextsMax)
            && NoOrphans(p)
  {
    assert Runs.InFlight([Runs.Idle]) == 0 by { Runs.NobodyInFlight([Runs.Idle]); }
    RunKeepsSteady(START, cfg, ops);
    Runs.NobodyInFlight([Runs.Idle]);
  }

  // --- Draining ---

  function FirstReading(op: Op): int {
    match op
    case AcquireOp(_, _, launchNow, _) => launchNow
    case ReleaseOp(_, now) => now
    case SweepOp(now, _) => now
  }

  function LastReading(op: Op): int {
    match op
    case AcquireOp(_, _, _, now) => now
    case ReleaseOp(_, now) => now
    case SweepOp(_, touch) => touch
  }

  /** All clock readings of the run, in order, from `clock` on. */
  ghost predicate Monotone(clock: int, ops: seq<Op>)
    decreases |ops|
  {
    ops == [] || (clock <= FirstReading(ops[0]) <= LastReading(ops[0]) && Monotone(LastReading(ops[0]), ops[1..]))
  }

  /** No session outlives the clock by more than the longest TTL. */
  ghost predicate TtlBounded(p: State, clock: int) {
    forall r :: r in p.sessions ==> r.expiresAt <= clock + MAX_TTL_SECONDS * NANOS
  }

  /** `chromium` takes no new session and everything on it expires by `deadline`. */
  ghost predicate Retiring(w: World, chromium: nat, deadline: int) {
    && chromium < w.nextId
    && (forall i :: 0 <= i < |w.pool.chromiums| && w.pool.chromiums[i].id == chromium ==>
      w.pool.chromiums[i].mode.Draining?)
    && (forall r :: r in w.pool.sessions && r.chromium == chromium ==> r.expiresAt <= deadline)
  }

  ghost predicate NoNewOn(p: State, q: State, chromium: nat) {
    forall r :: r in q.sessions && r.chromium == chromium ==> r in p.sessions
  }

  /** `c` was in the pool before, and was not draining unless it is now. */
  ghost predicate CameFrom(p: State, c: Chromium) {
    exists k :: 0 <= k < |p.chromiums| && p.chromiums[k].id == c.id &&
      (p.chromiums[k].mode.Draining? ==> c.mode.Draining?)
  }

  lemma ApplyModes(p: State, plan: Plan)
    ensures forall i :: 0 <= i < |Apply(p, plan).chromiums| ==> CameFrom(p, Apply(p, plan).chromiums[i])
  {
    var m, at := Apply(p, plan), Position(p.chromiums, plan.id);
    forall i | 0 <= i < |m.chromiums|
      ensures CameFrom(p, m.chromiums[i])
    {
      var k := if plan.Kill? && at.Some? && at.value <= i then i + 1 else i;
      assert p.chromiums[k].id == m.chromiums[i].id;
    }
  }

  lemma CameFromVia(p: State, m: State, c: Chromium)
    requires CameFrom(m, c) && forall k :: 0 <= k < |m.chromiums| ==> CameFrom(p, m.chromiums[k])
    ensures CameFrom(p, c)
  {
    var k :| 0 <= k < |m.chromiums| && m.chromiums[k].id == c.id &&
      (m.chromiums[k].mode.Draining? ==> c.mode.Draining?);
    assert CameFrom(p, m.chromiums[k]);
  }

  lemma {:induction false} ApplyAllShape(p: State, plans: seq<Plan>)
    requires DistinctChromiums(p.chromiums)
    ensures var q := ApplyAll(p, plans);
            && q.sessions == p.sessions && DistinctChromiums(q.chromiums)
            && forall i :: 0 <= i < |q.chromiums| ==> CameFrom(p, q.chromiums[i])
    decreases |plans|
  {
    if plans != [] {
      var m, q := Apply(p, plans[0]), ApplyAll(p, plans);
      ApplyModes(p, plans[0]);
      ApplyAllShape(m, plans[1..]);
      forall i | 0 <= i < |q.chromiums|
        ensures CameFrom(p, q.chromiums[i])
      {
        CameFromVia(p, m, q.chromiums[i]);
      }
    }
  }

  lemma ApplyKeepsDistinct(p: State, plan: Plan)
    requires DistinctChromiums(p.chromiums)
    ensures DistinctChromiums(Apply(p, plan).chromiums)
    ensures plan.Kill? ==> !Present(Apply(p, plan), plan.id)
  {
  }

  lemma AbsentStays(p: State, plans: seq<Plan>, chromium: nat)
    requires DistinctChromiums(p.chromiums) && !Present(p, chromium)
    ensures !Present(ApplyAll(p, plans), chromium)
  {
    ApplyAllShape(p, plans);
    var q := ApplyAll(p, plans);
    forall i | 0 <= i < |q.chromiums|
      ensures q.chromiums[i].id != chromium
    {
      assert CameFrom(p, q.chromiums[i]);
    }
  }

  lemma {:induction false} ApplyAllRemoves(p: State, plans: seq<Plan>, n: nat)
    requires DistinctChromiums(p.chromiums) && n < |plans| && plans[n].Kill?
    ensures !Present(ApplyAll(p, plans), plans[n].id)
    decreases |plans|
  {
    var m := Apply(p, plans[0]);
    ApplyKeepsDistinct(p, plans[0]);
    if n == 0 {
      AbsentStays(m, plans[1..], plans[0].id);
    } else {
      ApplyAllRemoves(m, plans[1..], n - 1);
    }
  }

  lemma SweepKeepsRetiring(w: World, cfg: Config, now: int, touch: int, chromium: nat, deadline: int)
    requires Coherent(w.pool) && Retiring(w, chromium, deadline)
    ensures var t := Next(w, cfg, SweepOp(now, touch));
            Retiring(t, chromium, deadline) && NoNewOn(w.pool, t.pool, chromium)
  {
    var q := Expire(w.pool, now, touch);
    ExpireExact(w.pool, now, touch);
    ApplyAllShape(q, Plans(Snapshots(q.chromiums), cfg, now));
  }

  lemma {:induction false} NoIdsOn(ss: seq<Session>, chromium: nat)
    requires forall j :: 0 <= j < |ss| ==> ss[j].chromium != chromium
    ensures IdsOn(ss, chromium) == []
  {
    if ss != [] {
      NoIdsOn(ss[..|ss| - 1], chromium);
    }
  }

  /** A sweep at or past the deadline removes a retiring process. */
  lemma LateSweepRemoves(w: World, cfg: Config, now: int, touch: int, chromium: nat, deadline: int)
    requires Coherent(w.pool) && Retiring(w, chromium, deadline) && deadline <= now
    ensures !Present(Next(w, cfg, SweepOp(now, touch)).pool, chromium)
  {
    var q := Expire(w.pool, now, touch);
    ExpireExact(w.pool, now, touch);
    var snaps := Snapshots(q.chromiums);
    var plans := Plans(snaps, cfg, now);
    ApplyAllShape(q, plans);
    if Present(q, chromium) {
      var i :| 0 <= i < |q.chromiums| && q.chromiums[i].id == chromium;
      forall j | 0 <= j < |q.sessions|
        ensures q.sessions[j].chromium != chromium
      {
        assert q.sessions[j] in q.sessions;
      }
      NoIdsOn(q.sessions, chromium);
      PlansSound(snaps, cfg, now, Kill(chromium, MaxAge));
      assert snaps[i].id == chromium && snaps[i].mode.Draining? && snaps[i].activeSessions == 0;
      var n :| 0 <= n < |plans| && plans[n] == Kill(chromium, MaxAge);
      ApplyAllRemoves(q, plans, n);
    }
  }

  lemma NextKeepsRetiring(w: World, cfg: Config, op: Op, chromium: nat, deadline: int)
    requires Coherent(w.pool) && Retiring(w, chromium, deadline)
    ensures Retiring(Next(w, cfg, op), chromium, deadline) && NoNewOn(w.pool, Next(w, cfg, op).pool, chromium)
    ensures !Present(w.pool, chromium) ==> !Present(Next(w, cfg, op).pool, chromium)
  {
    match op
    case SweepOp(now, touch) =>
      SweepKeepsRetiring(w, cfg, now, touch, chromium, deadline);
      var q := Expire(w.pool, now, touch);
      ExpireExact(w.pool, now, touch);
      ApplyAllShape(q, Plans(Snapshots(q.chromiums), cfg, now));
    case ReleaseOp(sid, now) => DropShrinks(w.pool, sid, now);
    case AcquireOp(_, _, _, _) =>
  }

  lemma NextKeepsTtlBounded(w: World, cfg: Config, op: Op, clock: int)
    requires Coherent(w.pool) && TtlBounded(w.pool, clock) && Monotone(clock, [op])
    ensures TtlBounded(Next(w, cfg, op).pool, LastReading(op))
  {
    match op
    case SweepOp(now, touch) =>
      var q := Expire(w.pool, now, touch);
      ExpireExact(w.pool, now, touch);
      ApplyAllShape(q, Plans(Snapshots(q.chromiums), cfg, now));
    case ReleaseOp(sid, now) => DropShrinks(w.pool, sid, now);
    case AcquireOp(_, _, _, _) =>
  }

  function ClockAfter(clock: int, ops: seq<Op>): int
    decreases |ops|
  {
    if ops == [] then clock else ClockAfter(LastReading(ops[0]), ops[1..])
  }

  lemma {:induction false} RunKeepsTtlBounded(w: World, cfg: Config, ops: seq<Op>, clock: int)
    requires Steady(w, cfg) && TtlBounded(w.pool, clock) && Monotone(clock, ops)
    ensures TtlBounded(After(w, cfg, ops).pool, ClockAfter(clock, ops))
    decreases |ops|
  {
    if ops != [] {
      NextKeepsSteady(w, cfg, ops[0]);
      NextKeepsTtlBounded(w, cfg, ops[0], clock);
      RunKeepsTtlBounded(Next(w, cfg, ops[0]), cfg, ops[1..], LastReading(ops[0]));
    }
  }

  ghost predicate SweptBy(ops: seq<Op>, deadline: int) {
    exists i :: 0 <= i < |ops| && ops[i].SweepOp? && ops[i].now >= deadline
  }

  lemma {:induction false} RetiringRun(w: World, cfg: Config, ops: seq<Op>, chromium: nat, deadline: int)
    requires Steady(w, cfg) && Retiring(w, chromium, deadline)
    ensures var t := After(w, cfg, ops);
            && Retiring(t, chromium, deadline) && NoNewOn(w.pool, t.pool, chromium)
            && (!Present(w.pool, chromium) || SweptBy(ops, deadline) ==> !Present(t.pool, chromium))
    decreases |ops|
  {
    if ops != [] {
      var m := Next(w, cfg, ops[0]);
      NextKeepsSteady(w, cfg, ops[0]);
      NextKeepsRetiring(w, cfg, ops[0], chromium, deadline);
      if ops[0].SweepOp? && ops[0].now >= deadline {
        LateSweepRemoves(w, cfg, ops[0].now, ops[0].touch, chromium, deadline);
      }
      if SweptBy(ops, deadline) && !(ops[0].SweepOp? && ops[0].now >= deadline) {
        var i :| 0 <= i < |ops| && ops[i].SweepOp? && ops[i].now >= deadline;
        assert ops[1..][i - 1] == ops[i];
      }
      RetiringRun(m, cfg, ops[1..], chromium, deadline);
    }
  }

  lemma SweepShape(p: State, cfg: Config, now: int, touch: int)
    requires Coherent(p)
    ensures DistinctChromiums(Sweep(p, cfg, now, touch).chromiums)
    ensures forall r :: r in Sweep(p, cfg, now, touch).sessions ==> r in p.sessions
  {
    var q := Expire(p, now, touch);
    ExpireExact(p, now, touch);
    ApplyAllShape(q, Plans(Snapshots(q.chromiums), cfg, now));
  }

  lemma SteadyIds(w: World, cfg: Config, i: nat)
    requires Steady(w, cfg) && i < |w.pool.chromiums|
    ensures w.pool.chromiums[i].id < w.nextId
  {
  }

  /** A process a sweep leaves draining is retiring: no session on it outlives the longest TTL. */
  lemma SweepRetires(w: World, cfg: Config, clock: int, t: int, touch: int, i: nat)
    requires Coherent(w.pool) && TtlBounded(w.pool, clock) && clock <= t
    requires i < |Sweep(w.pool, cfg, t, touch).chromiums|
    requires Sweep(w.pool, cfg, t, touch).chromiums[i].mode.Draining? &&
             Sweep(w.pool, cfg, t, touch).chromiums[i].id < w.nextId
    ensures Retiring(Next(w, cfg, SweepOp(t, touch)), Sweep(w.pool, cfg, t, touch).chromiums[i].id,
            t + MAX_TTL_SECONDS * NANOS)
  {
    SweepShape(w.pool, cfg, t, touch);
  }

  lemma ReachedBySequentialCalls(cfg: Config, ops: seq<Op>, clock: int)
    requires Monotone(clock, ops)
    ensures Steady(After(START, cfg, ops), cfg) && TtlBounded(After(START, cfg, ops).pool, ClockAfter(clock, ops))
  {
    Runs.NobodyInFlight([Runs.Idle]);
    RunKeepsSteady(START, cfg, ops);
    RunKeepsTtlBounded(START, cfg, ops, clock);
  }

  lemma SteadySweepRetires(w: World, cfg: Config, clock: int, t: int, touch: int, i: nat)
    requires Steady(w, cfg) && TtlBounded(w.pool, clock) && clock <= t
    requires i < |Next(w, cfg, SweepOp(t, touch)).pool.chromiums|
    requires Next(w, cfg, SweepOp(t, touch)).pool.chromiums[i].mode.Draining?
    ensures var swept := Next(w, cfg, SweepOp(t, touch));
            Steady(swept, cfg) && Retiring(swept, swept.pool.chromiums[i].id, t + MAX_TTL_SECONDS * NANOS)
  {
    NextKeepsSteady(w, cfg, SweepOp(t, touch));
    SteadyIds(Next(w, cfg, SweepOp(t, touch)), cfg, i);
    SweepRetires(w, cfg, clock, t, touch, i);
  }

  /**
   A process drained by a sweep at time `t` gets no new session, never becomes active again, and is
   gone after any later sweep at `t` plus the longest TTL, on every sequential run with a monotone clock.
   */
  lemma DrainedIsRetired(cfg: Config, before: seq<Op>, clock: int, t: int, touch: int, after: seq<Op>, i: nat)
    requires Monotone(clock, before) && ClockAfter(clock, before) <= t
    requires i < |Next(After(START, cfg, before), cfg, SweepOp(t, touch)).pool.chromiums|
    requires Next(After(START, cfg, before), cfg, SweepOp(t, touch)).pool.chromiums[i].mode.Draining?
    ensures var swept := Next(After(START, cfg, before), cfg, SweepOp(t, touch));
            var chromium := swept.pool.chromiums[i].id;
            var end := After(swept, cfg, after);
            && NoNewOn(swept.pool, end.pool, chromium)
            && (forall k :: 0 <= k < |end.pool.chromiums| && end.pool.chromiums[k].id == chromium ==>
              end.pool.chromiums[k].mode.Draining?)
            && (SweptBy(after, t + MAX_TTL_SECONDS * NANOS) ==> !Present(end.pool, chromium))
  {
    var w := After(START, cfg, before);
    var swept := Next(w, cfg, SweepOp(t, touch));
    ReachedBySequentialCalls(cfg, before, clock);
    SteadySweepRetires(w, cfg, ClockAfter(clock, before), t, touch, i);
    RetiringRun(swept, cfg, after, swept.pool.chromiums[i].id, t + MAX_TTL_SECONDS * NANOS);
  }
}
