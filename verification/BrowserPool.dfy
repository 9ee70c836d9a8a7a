/** The pool object: its two vectors, changed in place by whole calls. */
module BrowserPool {
  import opened Common
  import opened Pool
  import Runs = PoolRuns
  import Sequential = PoolSequential

  /** The recycle decisions for a snapshot of the pool, in pool order. */
  method Decide(snapshots: seq<Snapshot>, cfg: Config, now: int) returns (plans: seq<Plan>)
    ensures plans == Plans(snapshots, cfg, now)
  {
    plans := [];
    for i := 0 to |snapshots|
      invariant plans == Plans(snapshots[..i], cfg, now)
    {
      assert snapshots[..i + 1][..i] == snapshots[..i];
      var c := snapshots[i];
      if c.mode.Draining? && c.activeSessions == 0 {
        plans := plans + [Kill(c.id, MaxAge)];
        continue;
      }
      if Seconds(now - c.createdAt) >= cfg.maxAgeSeconds && c.mode.Active? {
        if c.activeSessions == 0 {
          plans := plans + [Kill(c.id, MaxAge)];
        } else {
          plans := plans + [Drain(c.id, MaxAge)];
        }
        continue;
      }
      if c.mode.Active? && c.activeSessions == 0 && Seconds(now - c.lastActiveAt) >= cfg.idleSeconds {
        plans := plans + [Kill(c.id, IdleReason)];
      }
    }
    assert snapshots[..|snapshots|] == snapshots;
  }

  ghost predicate Shown(snapshots: seq<Snapshot>, id: nat) {
    exists k :: 0 <= k < |snapshots| && snapshots[k].id == id
  }

  /** No process is planned for twice, and only processes of the snapshot are. */
  ghost predicate OnePerProcess(snapshots: seq<Snapshot>, plans: seq<Plan>) {
    && (forall i, j :: 0 <= i < j < |plans| ==> plans[i].id != plans[j].id)
    && (forall i :: 0 <= i < |plans| ==> Shown(snapshots, plans[i].id))
  }

  lemma {:induction false} PlansOnePerProcess(snapshots: seq<Snapshot>, cfg: Config, now: int)
    requires forall i, j :: 0 <= i < j < |snapshots| ==> snapshots[i].id != snapshots[j].id
    ensures OnePerProcess(snapshots, Plans(snapshots, cfg, now))
  {
    if snapshots != [] {
      var n := |snapshots| - 1;
      var before := Plans(snapshots[..n], cfg, now);
      PlansOnePerProcess(snapshots[..n], cfg, now);
      assert snapshots[n].id == snapshots[n].id && Shown(snapshots, snapshots[n].id);
      forall i | 0 <= i < |before|
        ensures Shown(snapshots, before[i].id) && before[i].id != snapshots[n].id
      {
        assert Shown(snapshots[..n], before[i].id);
        var k :| 0 <= k < n && snapshots[..n][k].id == before[i].id;
        assert snapshots[k].id == before[i].id;
      }
    }
  }

  /** Every plan, applied in turn, will find its process. */
  ghost predicate AllHit(p: State, plans: seq<Plan>) {
    && DistinctChromiums(p.chromiums)
    && (forall j, k :: 0 <= j < k < |plans| ==> plans[j].id != plans[k].id)
    && (forall j :: 0 <= j < |plans| ==> Present(p, plans[j].id))
  }

  lemma HitKeepsLater(p: State, plans: seq<Plan>)
    requires AllHit(p, plans) && plans != []
    ensures Position(p.chromiums, plans[0].id).Some? && AllHit(Apply(p, plans[0]), plans[1..])
  {
    Sequential.ApplyKeepsDistinct(p, plans[0]);
    forall j | 0 <= j < |plans| - 1
      ensures Present(Apply(p, plans[0]), plans[1..][j].id)
    {
      assert plans[1..][j] == plans[j + 1];
      Runs.ApplyKeepsOthers(p, plans[0], plans[j + 1].id);
    }
    assert Present(p, plans[0].id);
  }

  lemma ShownArePresent(p: State, plans: seq<Plan>)
    requires DistinctChromiums(p.chromiums) && OnePerProcess(Snapshots(p.chromiums), plans)
    ensures AllHit(p, plans)
  {
    forall j | 0 <= j < |plans|
      ensures Present(p, plans[j].id)
    {
      assert Shown(Snapshots(p.chromiums), plans[j].id);
      var k :| 0 <= k < |p.chromiums| && Snapshots(p.chromiums)[k].id == plans[j].id;
      assert p.chromiums[k].id == plans[j].id;
    }
  }

  datatype SweepReport = SweepReport(expired: nat, drained: nat, killed: nat)

  class BrowserPool {
    const cfg: Config
    var chromiums: seq<Chromium>
    var sessions: seq<Session>

    constructor (cfg: Config)
      ensures this.cfg == cfg && Model() == EMPTY
    {
      this.cfg := cfg;
      chromiums, sessions := [], [];
    }

    function Model(): State
      reads this
    {
      State(chromiums, sessions)
    }

    method Acquire(req: Sequential.Request, launched: Option<nat>, sid: nat, launchNow: int, now: int)
      returns (r: Result<Session, Sequential.Error>)
      requires launched.Some? ==> !Present(Model(), launched.value)
      modifies this
      ensures (Model(), r) == Sequential.Acquire(old(Model()), cfg, req, launched, sid, launchNow, now)
    {
      if req.headed && !cfg.headedDefault { return Err(Sequential.InvalidRequest); }
      if req.ttl == 0 || req.ttl > MAX_TTL_SECONDS { return Err(Sequential.InvalidRequest); }
      if req.maxBytes == 0 { return Err(Sequential.InvalidRequest); }
      var warmest := FindWarmest(chromiums, cfg);
      var i: nat;
      if warmest.Some? {
        i := warmest.value;
      } else {
        if |chromiums| >= cfg.poolMax { return Err(Sequential.PoolExhausted); }
        if launched.None? { return Err(Sequential.LaunchFailed); }
        Sequential.PositionOfLast(chromiums, Chromium(launched.value, Active, launchNow, launchNow, []));
        chromiums := chromiums + [Chromium(launched.value, Active, launchNow, launchNow, [])];
        var found := Position(chromiums, launched.value);
        i := found.value;
      }
      var c := chromiums[i];
      var session := Session(sid, req.token, c.id, now, now + req.ttl * NANOS);
      chromiums := chromiums[i := c.(sessions := c.sessions + [sid], lastActiveAt := now)];
      sessions := sessions + [session];
      return Ok(session);
    }

    method Release(sid: nat, now: int) returns (r: Result<(), Sequential.Error>)
      modifies this
      ensures Model() == Drop(old(Model()), sid, now)
      ensures r == if exists j :: 0 <= j < old(|sessions|) && old(sessions)[j].id == sid then Ok(())
              else Err(Sequential.SessionNotFound)
    {
      var pos := SessionAt(sessions, sid);
      if pos.None? { return Err(Sequential.SessionNotFound); }
      RemoveSession(pos.value, now);
      return Ok(());
    }

    method RemoveSession(pos: nat, now: int)
      requires pos < |sessions| && SessionAt(sessions, sessions[pos].id) == Some(pos)
      modifies this
      ensures Model() == Drop(old(Model()), old(sessions[pos].id), now)
    {
      var removed := sessions[pos];
      sessions := RemoveAt(sessions, pos);
      var at := Position(chromiums, removed.chromium);
      if at.Some? {
        var c := chromiums[at.value];
        chromiums := chromiums[at.value := c.(sessions := Without(c.sessions, removed.id), lastActiveAt := now)];
      }
    }

    /** Token and expiry decide; the missing-process error needs a record left pointing at one. */
    method Attach(sid: nat, token: string, now: int) returns (r: Result<nat, Sequential.Error>)
      requires DistinctSessions(sessions)
      ensures r.Ok? <==>
                exists j :: 0 <= j < |sessions| && sessions[j].id == sid && now < sessions[j].expiresAt &&
                  sessions[j].token == token && Present(Model(), sessions[j].chromium)
      ensures r.Ok? ==> exists j :: 0 <= j < |sessions| && sessions[j].id == sid && sessions[j].chromium == r.value
      ensures r == Err(Sequential.SessionNotFound) <==> forall j :: 0 <= j < |sessions| ==> sessions[j].id != sid
      ensures r == Err(Sequential.SessionExpired) <==>
                exists j :: 0 <= j < |sessions| && sessions[j].id == sid && now >= sessions[j].expiresAt
      ensures r == Err(Sequential.InvalidToken) <==>
                exists j :: 0 <= j < |sessions| && sessions[j].id == sid && now < sessions[j].expiresAt &&
                  sessions[j].token != token
      ensures r == Err(Sequential.ChromiumGone) ==> !NoOrphans(Model())
    {
      var pos := SessionAt(sessions, sid);
      if pos.None? { return Err(Sequential.SessionNotFound); }
      var session := sessions[pos.value];
      if now >= session.expiresAt { return Err(Sequential.SessionExpired); }
      if token != session.token { return Err(Sequential.InvalidToken); }
      var at := Position(chromiums, session.chromium);
      if at.None? { return Err(Sequential.ChromiumGone); }
      assert Present(Model(), session.chromium);
      return Ok(session.chromium);
    }

    method Sweep(now: int, touch: int) returns (report: SweepReport)
      modifies this
      ensures Model() == Sequential.Sweep(old(Model()), cfg, now, touch)
      ensures report.killed == old(|chromiums|) - |chromiums|
      ensures report.expired == |ExpiredIds(old(sessions), now)|
      ensures old(Coherent(Model())) ==>
                report.drained + report.killed ==
                  |Plans(Snapshots(Expire(old(Model()), now, touch).chromiums), cfg, now)|
    {
      ghost var coherent := Coherent(Model());
      if coherent { ExpireExact(Model(), now, touch); }
      var ids := ExpireAll(now, touch);
      var snapshots := Snapshots(chromiums);
      var plans := Decide(snapshots, cfg, now);
      if coherent {
        PlansOnePerProcess(snapshots, cfg, now);
        ShownArePresent(Model(), plans);
      }
      var drained, killed := ApplyPlans(plans);
      report := SweepReport(|ids|, drained, killed);
    }

    /** The second half of a sweep: every plan still meets its process, or is dropped. */
    method ApplyPlans(plans: seq<Plan>) returns (drained: nat, killed: nat)
      modifies this
      ensures Model() == ApplyAll(old(Model()), plans)
      ensures killed == old(|chromiums|) - |chromiums|
      ensures old(AllHit(Model(), plans)) ==> drained + killed == |plans|
    {
      drained, killed := 0, 0;
      ghost var start := Model();
      for i := 0 to |plans|
        invariant ApplyAll(start, plans) == ApplyAll(Model(), plans[i..])
        invariant killed == |start.chromiums| - |chromiums|
        invariant AllHit(start, plans) ==> drained + killed == i && AllHit(Model(), plans[i..])
      {
        var plan := plans[i];
        var pos := Position(chromiums, plan.id);
        assert plans[i..][0] == plan && plans[i..][1..] == plans[i + 1..];
        if AllHit(Model(), plans[i..]) { HitKeepsLater(Model(), plans[i..]); }
        if pos.Some? {
          if plan.Drain? {
            chromiums := chromiums[pos.value := chromiums[pos.value].(mode := Draining)];
            drained := drained + 1;
          } else {
            chromiums := RemoveAt(chromiums, pos.value);
            killed := killed + 1;
          }
        }
      }
    }

    method ExpireAll(now: int, touch: int) returns (ids: seq<nat>)
      modifies this
      ensures ids == ExpiredIds(old(sessions), now)
      ensures Model() == Expire(old(Model()), now, touch) && |chromiums| == old(|chromiums|)
    {
      ids := [];
      for i := 0 to |sessions|
        invariant ids == ExpiredIds(sessions[..i], now)
      {
        assert sessions[..i + 1][..i] == sessions[..i];
        if now >= sessions[i].expiresAt {
          ids := ids + [sessions[i].id];
        }
      }
      assert sessions[..|sessions|] == sessions;
      ghost var start := Model();
      for i := 0 to |ids|
        invariant DropAll(start, ids, touch) == DropAll(Model(), ids[i..], touch)
        invariant |chromiums| == old(|chromiums|)
      {
        assert ids[i..][0] == ids[i] && ids[i..][1..] == ids[i + 1..];
        var pos := SessionAt(sessions, ids[i]);
        if pos.Some? {
          DropShrinks(Model(), ids[i], touch);
          RemoveSession(pos.value, touch);
        }
      }
    }
  }
}
