/** What one whole sweep does to every process of the pool. */
module PoolSweep {
  import opened Common
  import opened Pool
  import opened PoolSequential

  /** Old enough to be recycled, in the clock's own unit; a limit of zero makes every process so. */
  predicate TooOld(c: Chromium, cfg: Config, now: int) {
    cfg.maxAgeSeconds == 0 || now - c.createdAt >= cfg.maxAgeSeconds * NANOS
  }

  predicate TooIdle(c: Chromium, cfg: Config, now: int) {
    cfg.idleSeconds == 0 || now - c.lastActiveAt >= cfg.idleSeconds * NANOS
  }

  lemma WholeSeconds(d: int, limit: nat)
    ensures Seconds(d) >= limit <==> limit == 0 || d >= limit * NANOS
  {
  }

  /** Some plan kills, or drains, the process. */
  ghost predicate PlannedKill(plans: seq<Plan>, id: nat) {
    exists n :: 0 <= n < |plans| && plans[n].Kill? && plans[n].id == id
  }

  ghost predicate PlannedDrain(plans: seq<Plan>, id: nat) {
    exists n :: 0 <= n < |plans| && plans[n].Drain? && plans[n].id == id
  }

  /** A process after all plans: gone, or as it was but for its mode. */
  lemma {:induction false} ApplyAllAt(p: State, plans: seq<Plan>, c: Chromium)
    requires DistinctChromiums(p.chromiums) && c in p.chromiums
    ensures PlannedKill(plans, c.id) ==> !Present(ApplyAll(p, plans), c.id)
    ensures !PlannedKill(plans, c.id) ==>
              c.(mode := if PlannedDrain(plans, c.id) then Draining else c.mode) in ApplyAll(p, plans).chromiums
    decreases |plans|
  {
    if plans != [] {
      var plan, rest := plans[0], plans[1..];
      var m := Apply(p, plan);
      ApplyExact(p, plan);
      ApplyKeepsDistinct(p, plan);
      FirstPlanOrRest(plans, c.id);
      if plan.Kill? && plan.id == c.id {
        AbsentStays(m, rest, c.id);
      } else {
        var i :| 0 <= i < |p.chromiums| && p.chromiums[i] == c;
        var d := if plan.id == c.id then c.(mode := Draining) else c;
        assert plan.Drain? ==> m.chromiums[i] == d;
        ApplyAllAt(m, rest, d);
      }
    }
  }

  lemma FirstPlanOrRest(plans: seq<Plan>, id: nat)
    requires plans != []
    ensures PlannedKill(plans, id) <==> (plans[0].Kill? && plans[0].id == id) || PlannedKill(plans[1..], id)
    ensures PlannedDrain(plans, id) <==> (plans[0].Drain? && plans[0].id == id) || PlannedDrain(plans[1..], id)
  {
    var rest := plans[1..];
    if n :| 0 <= n < |rest| && rest[n].Kill? && rest[n].id == id { assert plans[n + 1] == rest[n]; }
    if n :| 0 <= n < |rest| && rest[n].Drain? && rest[n].id == id { assert plans[n + 1] == rest[n]; }
    if n :| 0 <= n < |plans| && plans[n].Kill? && plans[n].id == id && n > 0 { assert rest[n - 1] == plans[n]; }
    if n :| 0 <= n < |plans| && plans[n].Drain? && plans[n].id == id && n > 0 { assert rest[n - 1] == plans[n]; }
  }

  /** What is planned for a process, in its own fields. */
  lemma PlannedIff(q: State, cfg: Config, now: int, c: Chromium)
    requires DistinctChromiums(q.chromiums) && c in q.chromiums
    ensures var plans := Plans(Snapshots(q.chromiums), cfg, now);
            && (PlannedKill(plans, c.id) <==>
                  c.sessions == [] && (c.mode.Draining? || TooOld(c, cfg, now) || TooIdle(c, cfg, now)))
            && (PlannedDrain(plans, c.id) <==> c.sessions != [] && c.mode.Active? && TooOld(c, cfg, now))
  {
    var snaps := Snapshots(q.chromiums);
    var plans := Plans(snaps, cfg, now);
    var k :| 0 <= k < |q.chromiums| && q.chromiums[k] == c;
    assert snaps[k] == SnapshotOf(c) && forall i :: 0 <= i < |snaps| && snaps[i].id == c.id ==> i == k;
    WholeSeconds(now - c.createdAt, cfg.maxAgeSeconds);
    WholeSeconds(now - c.lastActiveAt, cfg.idleSeconds);
    forall plan: Plan | plan.id == c.id
      ensures plan in plans <==> PlanFor(snaps[k], cfg, now) == Some(plan)
    {
      PlansSound(snaps, cfg, now, plan);
    }
    if n :| 0 <= n < |plans| && plans[n].id == c.id { assert plans[n] in plans; }
    if PlanFor(snaps[k], cfg, now).Some? {
      assert PlanFor(snaps[k], cfg, now).value in plans;
    }
  }

  /**
   A sweep, process by process, after expiry: it removes exactly the empty ones that are draining, too old
   or too idle; every other one stays as it is, but one that is too old and in use is draining from now on.
   */
  lemma SweepExact(p: State, cfg: Config, now: int, touch: int, c: Chromium)
    requires Coherent(p) && c in Expire(p, now, touch).chromiums
    ensures var q := Sweep(p, cfg, now, touch);
            var doomed := c.sessions == [] && (c.mode.Draining? || TooOld(c, cfg, now) || TooIdle(c, cfg, now));
            && (doomed ==> !Present(q, c.id))
            && (!doomed ==>
                  c.(mode := if c.sessions != [] && TooOld(c, cfg, now) then Draining else c.mode) in q.chromiums)
  {
    var e := Expire(p, now, touch);
    ExpireExact(p, now, touch);
    PlannedIff(e, cfg, now, c);
    ApplyAllAt(e, Plans(Snapshots(e.chromiums), cfg, now), c);
  }

  /** So every process that is still active after a sweep is young, and if it is empty was used lately. */
  lemma ActiveIsFresh(p: State, cfg: Config, now: int, touch: int, i: nat)
    requires Coherent(p) && i < |Sweep(p, cfg, now, touch).chromiums|
    requires Sweep(p, cfg, now, touch).chromiums[i].mode.Active?
    ensures var c := Sweep(p, cfg, now, touch).chromiums[i];
            !TooOld(c, cfg, now) && (c.sessions == [] ==> !TooIdle(c, cfg, now))
  {
    var e, q := Expire(p, now, touch), Sweep(p, cfg, now, touch);
    var c := q.chromiums[i];
    var k := SweptFrom(p, cfg, now, touch, i);
    SweepExact(p, cfg, now, touch, e.chromiums[k]);
    assert Present(q, c.id);
    SweepShape(p, cfg, now, touch);
    var d := e.chromiums[k].(mode := if e.chromiums[k].sessions != [] && TooOld(e.chromiums[k], cfg, now) then Draining
                                     else e.chromiums[k].mode);
    assert d in q.chromiums && d.id == c.id;
  }

  lemma SweptFrom(p: State, cfg: Config, now: int, touch: int, i: nat) returns (k: nat)
    requires Coherent(p) && i < |Sweep(p, cfg, now, touch).chromiums|
    ensures k < |Expire(p, now, touch).chromiums|
    ensures Expire(p, now, touch).chromiums[k].id == Sweep(p, cfg, now, touch).chromiums[i].id
  {
    var e := Expire(p, now, touch);
    ExpireExact(p, now, touch);
    ApplyAllShape(e, Plans(Snapshots(e.chromiums), cfg, now));
    assert CameFrom(e, Sweep(p, cfg, now, touch).chromiums[i]);
    k :| k < |e.chromiums| && e.chromiums[k].id == Sweep(p, cfg, now, touch).chromiums[i].id;
  }

  /** Draining happens: for every configuration that launches, a process in use when it turns too old is drained. */
  lemma DrainHappens(cfg: Config)
    requires cfg.poolMax >= 1
    ensures var late := cfg.maxAgeSeconds * NANOS;
            var ops := [AcquireOp(Request(1, false, 1, ""), true, 0, late), SweepOp(late, late)];
            && Monotone(0, ops)
            && After(START, cfg, ops).pool.chromiums == [Chromium(0, Draining, 0, late, [1])]
            && |After(START, cfg, ops).pool.sessions| == 1
  {
    var late := cfg.maxAgeSeconds * NANOS;
    var acquire, sweep := AcquireOp(Request(1, false, 1, ""), true, 0, late), SweepOp(late, late);
    var ops := [acquire, sweep];
    assert ops[1..] == [sweep] && ops[1..][1..] == [];
    var w := Next(START, cfg, acquire);
    assert After(START, cfg, ops) == After(w, cfg, [sweep]) == Next(w, cfg, sweep);
    FirstIsUsed(cfg, late);
    AgedDrains(w.pool, cfg);
  }

  lemma FirstIsUsed(cfg: Config, now: int)
    requires cfg.poolMax >= 1
    ensures Next(START, cfg, AcquireOp(Request(1, false, 1, ""), true, 0, now)).pool ==
            State([Chromium(0, Active, 0, now, [1])], [Session(1, "", 0, now, now + NANOS)])
  {
    var pushed, session := Push(EMPTY, 0, 0), Session(1, "", 0, now, now + NANOS);
    assert pushed.chromiums == [Chromium(0, Active, 0, 0, [])] && [] + [1] == [1];
    assert Bind(pushed, 0, session).chromiums == [Chromium(0, Active, 0, now, [1])];
    assert Next(START, cfg, AcquireOp(Request(1, false, 1, ""), true, 0, now)).pool == Bind(pushed, 0, session);
  }

  lemma AgedDrains(p: State, cfg: Config)
    requires var late := cfg.maxAgeSeconds * NANOS;
             p == State([Chromium(0, Active, 0, late, [1])], [Session(1, "", 0, late, late + NANOS)])
    ensures var late := cfg.maxAgeSeconds * NANOS;
            Sweep(p, cfg, late, late) == State([Chromium(0, Draining, 0, late, [1])], p.sessions)
  {
    var late := cfg.maxAgeSeconds * NANOS;
    assert p.sessions[..0] == [] && ExpiredIds(p.sessions[..0], late) == [];
    assert ExpiredIds(p.sessions, late) == [];
    var snaps := Snapshots(p.chromiums);
    assert Seconds(late - 0) == cfg.maxAgeSeconds;
    assert snaps[..0] == [] && Plans(snaps[..0], cfg, late) == [];
    var plans := Plans(snaps, cfg, late);
    assert plans == [Drain(0, MaxAge)] && plans[1..] == [];
    assert ApplyAll(p, plans) == Apply(p, plans[0]);
    assert Apply(p, plans[0]).chromiums == [Chromium(0, Draining, 0, late, [1])];
  }
}
