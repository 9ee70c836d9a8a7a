/**
 The browser pool: warm Chromium processes, the sessions bound to them, and the
 recycle policy.  Times are nanoseconds; ids handed out by the launcher and by
 the session minting are fresh numbers.

 Each function below is what the code does under one hold of the pool's lock.
 */
module Pool {
  import opened Common

  const NANOS: int := 1_000_000_000
  const MAX_TTL_SECONDS: nat := 3600

  datatype Mode = Active | Draining

  datatype Chromium = Chromium(id: nat, mode: Mode, createdAt: int, lastActiveAt: int, sessions: seq<nat>)

  datatype Session = Session(id: nat, token: string, chromium: nat, createdAt: int, expiresAt: int)

  datatype Config = Config(poolMax: nat, contextsMax: nat, idleSeconds: nat, maxAgeSeconds: nat, headedDefault: bool)

  datatype State = State(chromiums: seq<Chromium>, sessions: seq<Session>)

  const EMPTY := State([], [])

  // --- Lookups ---

  function Position(cs: seq<Chromium>, id: nat): (r: Option<nat>)
    ensures r.Some? ==> r.value < |cs| && cs[r.value].id == id
    ensures r.None? ==> forall i :: 0 <= i < |cs| ==> cs[i].id != id
  {
    if cs == [] then None
    else if cs[0].id == id then Some(0)
    else match Position(cs[1..], id) case Some(i) => Some(i + 1) case None => None
  }

  function SessionAt(ss: seq<Session>, id: nat): (r: Option<nat>)
    ensures r.Some? ==> r.value < |ss| && ss[r.value].id == id
    ensures r.None? ==> forall i :: 0 <= i < |ss| ==> ss[i].id != id
  {
    if ss == [] then None
    else if ss[0].id == id then Some(0)
    else match SessionAt(ss[1..], id) case Some(i) => Some(i + 1) case None => None
  }

  predicate Usable(c: Chromium, cfg: Config) {
    c.mode.Active? && |c.sessions| < cfg.contextsMax
  }

  /** The usable Chromium with the most sessions; among equals the last one. */
  function FindWarmest(cs: seq<Chromium>, cfg: Config): (r: Option<nat>)
    ensures r.None? <==> forall i :: 0 <= i < |cs| ==> !Usable(cs[i], cfg)
    ensures r.Some? ==> r.value < |cs| && Usable(cs[r.value], cfg)
    ensures r.Some? ==> forall i :: 0 <= i < |cs| && Usable(cs[i], cfg) ==>
              |cs[i].sessions| <= |cs[r.value].sessions| && (r.value < i ==> |cs[i].sessions| < |cs[r.value].sessions|)
  {
    if cs == [] then None else
    var last := |cs| - 1;
    var r := FindWarmest(cs[..last], cfg);
    if Usable(cs[last], cfg) && (r.None? || |cs[r.value].sessions| <= |cs[last].sessions|) then Some(last) else r
  }

  // --- Lock-sized changes ---

  function RemoveAt<T>(s: seq<T>, i: nat): seq<T>
    requires i < |s|
  {
    s[..i] + s[i + 1..]
  }

  function Without(ids: seq<nat>, x: nat): seq<nat> {
    if ids == [] then [] else
    var rest := Without(ids[..|ids| - 1], x);
    if ids[|ids| - 1] == x then rest else rest + [ids[|ids| - 1]]
  }

  function Bind(p: State, i: nat, r: Session): State
    requires i < |p.chromiums|
  {
    var c := p.chromiums[i];
    State(p.chromiums[i := c.(sessions := c.sessions + [r.id], lastActiveAt := r.createdAt)], p.sessions + [r])
  }

  function Push(p: State, id: nat, now: int): State {
    p.(chromiums := p.chromiums + [Chromium(id, Active, now, now, [])])
  }

  /** Remove one session and detach it from its Chromium, if that still exists. */
  function Drop(p: State, sid: nat, now: int): State {
    match SessionAt(p.sessions, sid)
    case None => p
    case Some(j) =>
      var ss := RemoveAt(p.sessions, j);
      match Position(p.chromiums, p.sessions[j].chromium)
      case None => State(p.chromiums, ss)
      case Some(i) =>
        var c := p.chromiums[i];
        State(p.chromiums[i := c.(sessions := Without(c.sessions, sid), lastActiveAt := now)], ss)
  }

  function ExpiredIds(ss: seq<Session>, now: int): seq<nat> {
    if ss == [] then [] else
    var rest := ExpiredIds(ss[..|ss| - 1], now);
    if now >= ss[|ss| - 1].expiresAt then rest + [ss[|ss| - 1].id] else rest
  }

  function DropAll(p: State, ids: seq<nat>, touch: int): State
    decreases |ids|
  {
    if ids == [] then p else DropAll(Drop(p, ids[0], touch), ids[1..], touch)
  }

  function Expire(p: State, now: int, touch: int): State {
    DropAll(p, ExpiredIds(p.sessions, now), touch)
  }

  // --- Recycle policy ---

  datatype Reason = IdleReason | MaxAge

  datatype Plan = Drain(id: nat, reason: Reason) | Kill(id: nat, reason: Reason)

  datatype Snapshot = Snapshot(id: nat, mode: Mode, createdAt: int, lastActiveAt: int, activeSessions: nat)

  function SnapshotOf(c: Chromium): Snapshot {
    Snapshot(c.id, c.mode, c.createdAt, c.lastActiveAt, |c.sessions|)
  }

  function Snapshots(cs: seq<Chromium>): (r: seq<Snapshot>)
    ensures |r| == |cs| && forall i :: 0 <= i < |cs| ==> r[i] == SnapshotOf(cs[i])
  {
    seq(|cs|, i requires 0 <= i < |cs| => SnapshotOf(cs[i]))
  }

  /** Whole seconds of a duration, never negative. */
  function Seconds(d: int): nat {
    if d < 0 then 0 else d / NANOS
  }

  predicate Aged(c: Snapshot, cfg: Config, now: int) {
    Seconds(now - c.createdAt) >= cfg.maxAgeSeconds
  }

  predicate IdleLong(c: Snapshot, cfg: Config, now: int) {
    Seconds(now - c.lastActiveAt) >= cfg.idleSeconds
  }

  function PlanFor(c: Snapshot, cfg: Config, now: int): Option<Plan> {
    if c.mode.Draining? && c.activeSessions == 0 then Some(Kill(c.id, MaxAge))
    else if Aged(c, cfg, now) && c.mode.Active? then
      Some(if c.activeSessions == 0 then Kill(c.id, MaxAge) else Drain(c.id, MaxAge))
    else if c.mode.Active? && c.activeSessions == 0 && IdleLong(c, cfg, now) then Some(Kill(c.id, IdleReason))
    else None
  }

  function Plans(cs: seq<Snapshot>, cfg: Config, now: int): seq<Plan> {
    if cs == [] then [] else
    var rest := Plans(cs[..|cs| - 1], cfg, now);
    match PlanFor(cs[|cs| - 1], cfg, now) case Some(plan) => rest + [plan] case None => rest
  }

  function Apply(p: State, plan: Plan): State {
    match Position(p.chromiums, plan.id)
    case None => p
    case Some(i) =>
      if plan.Drain? then p.(chromiums := p.chromiums[i := p.chromiums[i].(mode := Draining)])
      else p.(chromiums := RemoveAt(p.chromiums, i))
  }

  function ApplyAll(p: State, plans: seq<Plan>): State
    decreases |plans|
  {
    if plans == [] then p else ApplyAll(Apply(p, plans[0]), plans[1..])
  }

  function Recycle(p: State, cfg: Config, now: int): State {
    ApplyAll(p, Plans(Snapshots(p.chromiums), cfg, now))
  }

  /**
   A kill is planned exactly for an empty process that is draining, aged or idle; a drain exactly
   for an aged active one in use.
   */
  lemma {:induction false} PlansSound(cs: seq<Snapshot>, cfg: Config, now: int, plan: Plan)
    ensures plan in Plans(cs, cfg, now) <==>
            exists i :: 0 <= i < |cs| && cs[i].id == plan.id &&
              if plan.Kill?
              then cs[i].activeSessions == 0 &&
                   plan.reason == (if cs[i].mode.Draining? || Aged(cs[i], cfg, now) then MaxAge else IdleReason) &&
                   (cs[i].mode.Draining? || Aged(cs[i], cfg, now) || IdleLong(cs[i], cfg, now))
              else cs[i].activeSessions > 0 && cs[i].mode.Active? && Aged(cs[i], cfg, now) && plan.reason == MaxAge
  {
    if cs != [] {
      var last := |cs| - 1;
      PlansSound(cs[..last], cfg, now, plan);
      assert plan in Plans(cs, cfg, now) <==>
        plan in Plans(cs[..last], cfg, now) || PlanFor(cs[last], cfg, now) == Some(plan);
      assert cs == cs[..last] + [cs[last]];
    }
  }

  // --- Coherence of the two vectors ---

  /** The ids of the session records that name a Chromium, in order. */
  function IdsOn(ss: seq<Session>, chromium: nat): seq<nat> {
    if ss == [] then [] else
    var rest := IdsOn(ss[..|ss| - 1], chromium);
    if ss[|ss| - 1].chromium == chromium then rest + [ss[|ss| - 1].id] else rest
  }

  ghost predicate DistinctChromiums(cs: seq<Chromium>) {
    forall i, j :: 0 <= i < j < |cs| ==> cs[i].id != cs[j].id
  }

  ghost predicate DistinctSessions(ss: seq<Session>) {
    forall i, j :: 0 <= i < j < |ss| ==> ss[i].id != ss[j].id
  }

  ghost predicate NoRepeats(ids: seq<nat>) {
    forall i, j :: 0 <= i < j < |ids| ==> ids[i] != ids[j]
  }

  ghost predicate Coherent(p: State) {
    && DistinctChromiums(p.chromiums)
    && DistinctSessions(p.sessions)
    && forall i :: 0 <= i < |p.chromiums| ==> p.chromiums[i].sessions == IdsOn(p.sessions, p.chromiums[i].id)
  }

  ghost predicate Present(p: State, chromium: nat) {
    exists i :: 0 <= i < |p.chromiums| && p.chromiums[i].id == chromium
  }

  /** No session record points at a Chromium that is gone. */
  ghost predicate NoOrphans(p: State) {
    forall j :: 0 <= j < |p.sessions| ==> Present(p, p.sessions[j].chromium)
  }

  lemma {:induction false} IdsOnMembers(ss: seq<Session>, chromium: nat, x: nat)
    ensures x in IdsOn(ss, chromium) <==> exists j :: 0 <= j < |ss| && ss[j].chromium == chromium && ss[j].id == x
  {
    if ss != [] {
      IdsOnMembers(ss[..|ss| - 1], chromium, x);
      assert ss == ss[..|ss| - 1] + [ss[|ss| - 1]];
    }
  }

  lemma {:induction false} IdsOnNoRepeats(ss: seq<Session>, chromium: nat)
    requires DistinctSessions(ss)
    ensures NoRepeats(IdsOn(ss, chromium))
  {
    if ss != [] {
      IdsOnNoRepeats(ss[..|ss| - 1], chromium);
      IdsOnMembers(ss[..|ss| - 1], chromium, ss[|ss| - 1].id);
    }
  }

  lemma IdsOnAppend(ss: seq<Session>, r: Session, chromium: nat)
    ensures IdsOn(ss + [r], chromium) == if r.chromium == chromium then IdsOn(ss, chromium) + [r.id]
            else IdsOn(ss, chromium)
  {
    assert (ss + [r])[..|ss|] == ss;
  }

  lemma {:induction false} WithoutAbsent(ids: seq<nat>, x: nat)
    requires x !in ids
    ensures Without(ids, x) == ids
  {
    if ids != [] {
      WithoutAbsent(ids[..|ids| - 1], x);
    }
  }

  lemma {:induction false} IdsOnRemove(ss: seq<Session>, j: nat, chromium: nat)
    requires j < |ss| && DistinctSessions(ss)
    ensures IdsOn(RemoveAt(ss, j), chromium) ==
            if ss[j].chromium == chromium then Without(IdsOn(ss, chromium), ss[j].id) else IdsOn(ss, chromium)
  {
    var init, last := ss[..|ss| - 1], ss[|ss| - 1];
    assert ss == init + [last];
    if j == |ss| - 1 {
      assert RemoveAt(ss, j) == init;
      IdsOnMembers(init, chromium, last.id);
      WithoutAbsent(IdsOn(init, chromium), last.id);
    } else {
      assert RemoveAt(ss, j) == RemoveAt(init, j) + [last];
      IdsOnRemove(init, j, chromium);
      IdsOnAppend(RemoveAt(init, j), last, chromium);
    }
  }

  lemma BindKeepsCoherent(p: State, i: nat, r: Session)
    requires Coherent(p) && i < |p.chromiums| && r.chromium == p.chromiums[i].id
    requires forall j :: 0 <= j < |p.sessions| ==> p.sessions[j].id != r.id
    ensures Coherent(Bind(p, i, r))
  {
    forall k | 0 <= k < |p.chromiums|
      ensures Bind(p, i, r).chromiums[k].sessions == IdsOn(p.sessions + [r], p.chromiums[k].id)
    {
      IdsOnAppend(p.sessions, r, p.chromiums[k].id);
    }
  }

  lemma PushKeepsCoherent(p: State, id: nat, now: int)
    requires Coherent(p) && !Present(p, id)
    requires forall j :: 0 <= j < |p.sessions| ==> p.sessions[j].chromium != id
    ensures Coherent(Push(p, id, now))
  {
    if IdsOn(p.sessions, id) != [] {
      IdsOnMembers(p.sessions, id, IdsOn(p.sessions, id)[0]);
    }
  }

  lemma DropKeepsCoherent(p: State, sid: nat, now: int)
    requires Coherent(p)
    ensures Coherent(Drop(p, sid, now))
  {
    var found := SessionAt(p.sessions, sid);
    if found.Some? {
      var j := found.value;
      var q := Drop(p, sid, now);
      forall k | 0 <= k < |q.chromiums|
        ensures q.chromiums[k].sessions == IdsOn(q.sessions, q.chromiums[k].id)
      {
        IdsOnRemove(p.sessions, j, p.chromiums[k].id);
      }
    }
  }

  /** A drain plan changes the mode of exactly its process; a kill plan removes exactly its process. */
  lemma ApplyExact(p: State, plan: Plan)
    requires DistinctChromiums(p.chromiums)
    ensures var q := Apply(p, plan);
            && q.sessions == p.sessions
            && (plan.Drain? ==>
                  |q.chromiums| == |p.chromiums| && forall i :: 0 <= i < |p.chromiums| ==>
                    q.chromiums[i] ==
                    if p.chromiums[i].id == plan.id then p.chromiums[i].(mode := Draining) else p.chromiums[i])
            && (plan.Kill? ==> forall c :: c in q.chromiums <==> c in p.chromiums && c.id != plan.id)
  {
    var at := Position(p.chromiums, plan.id);
    if plan.Kill? && at.Some? {
      var q := RemoveAt(p.chromiums, at.value);
      assert p.chromiums == p.chromiums[..at.value] + [p.chromiums[at.value]] + p.chromiums[at.value + 1..];
      forall c
        ensures c in q <==> c in p.chromiums && c.id != plan.id
      {
      }
    }
  }

  lemma ApplyKeepsCoherent(p: State, plan: Plan)
    requires Coherent(p)
    ensures Coherent(Apply(p, plan))
  {
  }

  /** Sessions were only taken away: same Chromiums in the same modes, no new record, no longer list. */
  ghost predicate Shrunk(p: State, q: State) {
    && |q.chromiums| == |p.chromiums|
    && (forall i :: 0 <= i < |p.chromiums| ==>
          && q.chromiums[i].id == p.chromiums[i].id
          && q.chromiums[i].mode == p.chromiums[i].mode
          && q.chromiums[i].createdAt == p.chromiums[i].createdAt
          && |q.chromiums[i].sessions| <= |p.chromiums[i].sessions|)
    && (forall r :: r in q.sessions ==> r in p.sessions)
  }

  lemma {:induction false} WithoutShrinks(ids: seq<nat>, x: nat)
    ensures |Without(ids, x)| <= |ids|
  {
    if ids != [] {
      WithoutShrinks(ids[..|ids| - 1], x);
    }
  }

  lemma DropShrinks(p: State, sid: nat, now: int)
    ensures Shrunk(p, Drop(p, sid, now))
    ensures Coherent(p) ==> forall r :: r in Drop(p, sid, now).sessions <==> r in p.sessions && r.id != sid
  {
    var found := SessionAt(p.sessions, sid);
    if found.Some? {
      var j, ss := found.value, p.sessions;
      var at := Position(p.chromiums, ss[j].chromium);
      if at.Some? {
        WithoutShrinks(p.chromiums[at.value].sessions, sid);
      }
      assert ss == ss[..j] + [ss[j]] + ss[j + 1..];
      if Coherent(p) {
        assert forall i :: 0 <= i < |ss| && i != j ==> ss[i].id != sid;
      }
    }
  }

  lemma {:induction false} DropAllShrinks(p: State, ids: seq<nat>, touch: int)
    requires Coherent(p)
    ensures Coherent(DropAll(p, ids, touch)) && Shrunk(p, DropAll(p, ids, touch))
    ensures forall r :: r in DropAll(p, ids, touch).sessions <==> r in p.sessions && r.id !in ids
    decreases |ids|
  {
    if ids != [] {
      var q := Drop(p, ids[0], touch);
      DropShrinks(p, ids[0], touch);
      DropKeepsCoherent(p, ids[0], touch);
      DropAllShrinks(q, ids[1..], touch);
    }
  }

  lemma {:induction false} ExpiredMembers(ss: seq<Session>, now: int, x: nat)
    ensures x in ExpiredIds(ss, now) <==> exists r :: r in ss && r.id == x && now >= r.expiresAt
  {
    if ss != [] {
      var last := ss[|ss| - 1];
      ExpiredMembers(ss[..|ss| - 1], now, x);
      assert ss == ss[..|ss| - 1] + [last];
    }
  }

  /** A removal marks its process as just used, and touches no other. */
  lemma DropTouches(p: State, sid: nat, now: int, i: nat)
    requires Coherent(p) && i < |p.chromiums|
    ensures var c, d := p.chromiums[i], Drop(p, sid, now).chromiums[i];
            && d.sessions == Without(c.sessions, sid)
            && d.lastActiveAt == (if sid in c.sessions then now else c.lastActiveAt)
  {
    var c := p.chromiums[i];
    IdsOnMembers(p.sessions, c.id, sid);
    var at := SessionAt(p.sessions, sid);
    if sid !in c.sessions {
      WithoutAbsent(c.sessions, sid);
    } else {
      var j :| 0 <= j < |p.sessions| && p.sessions[j].chromium == c.id && p.sessions[j].id == sid;
      assert at == Some(j);
    }
  }

  /** Expiry marks exactly the processes that lose a session as just used. */
  lemma {:induction false} ExpiryTouches(p: State, ids: seq<nat>, touch: int, i: nat)
    requires Coherent(p) && i < |p.chromiums|
    ensures var c, d := p.chromiums[i], DropAll(p, ids, touch).chromiums;
            && i < |d|
            && d[i].lastActiveAt == (if exists x :: x in ids && x in c.sessions then touch else c.lastActiveAt)
            && forall x :: x in d[i].sessions <==> x in c.sessions && x !in ids
    decreases |ids|
  {
    if ids != [] {
      var q := Drop(p, ids[0], touch);
      DropKeepsCoherent(p, ids[0], touch);
      DropShrinks(p, ids[0], touch);
      DropTouches(p, ids[0], touch, i);
      ExpiryTouches(q, ids[1..], touch, i);
      assert ids == [ids[0]] + ids[1..];
      forall x
        ensures x in q.chromiums[i].sessions <==> x in p.chromiums[i].sessions && x != ids[0]
      {
        WithoutExact(p.chromiums[i].sessions, ids[0], x);
      }
    }
  }

  lemma {:induction false} WithoutExact(ids: seq<nat>, x: nat, y: nat)
    ensures y in Without(ids, x) <==> y in ids && y != x
  {
    if ids != [] {
      WithoutExact(ids[..|ids| - 1], x, y);
      assert ids == ids[..|ids| - 1] + [ids[|ids| - 1]];
    }
  }

  /** Expiry keeps exactly the unexpired records. */
  lemma ExpireExact(p: State, now: int, touch: int)
    requires Coherent(p)
    ensures var q := Expire(p, now, touch);
            && Coherent(q) && Shrunk(p, q)
            && forall r :: r in q.sessions <==> r in p.sessions && now < r.expiresAt
  {
    DropAllShrinks(p, ExpiredIds(p.sessions, now), touch);
    forall r | r in p.sessions
      ensures r.id in ExpiredIds(p.sessions, now) <==> now >= r.expiresAt
    {
      ExpiredMembers(p.sessions, now, r.id);
    }
  }
}
