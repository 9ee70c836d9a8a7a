/**
 The per-key token bucket that bounds focus calls, with its lazy eviction of
 idle buckets.  Tokens and times are exact reals, in tokens and seconds.
 */
module RateLimit {
  import opened Common

  datatype Config = Config(ratePerSec: real, burst: nat, idleEvict: real)
  {
    ghost predicate Sensible() {
      ratePerSec >= 0.0 && idleEvict >= 0.0
    }

    /** An idle bucket is dropped no earlier than it would have refilled completely. */
    predicate EvictsOnlyFull() {
      idleEvict * ratePerSec >= burst as real
    }
  }

  datatype Bucket = Bucket(tokens: real, lastRefill: real)

  type Buckets = map<string, Bucket>

  datatype Call = Call(key: string, at: real)

  /** `Instant::duration_since` saturates at zero. */
  function Elapsed(now: real, since: real): (d: real)
    ensures d >= 0.0
  {
    if now > since then now - since else 0.0
  }

  function Refill(cfg: Config, b: Bucket, now: real): real {
    var full := b.tokens + Accrued(cfg, Elapsed(now, b.lastRefill));
    if full <= cfg.burst as real then full else cfg.burst as real
  }

  function Evict(cfg: Config, m: Buckets, now: real): Buckets {
    map k | k in m && Elapsed(now, m[k].lastRefill) < cfg.idleEvict :: m[k]
  }

  /** One call on one key's bucket; a missing bucket starts full. */
  function Take(cfg: Config, b: Option<Bucket>, now: real): (Bucket, bool) {
    var tokens := Refill(cfg, if b.Some? then b.value else Bucket(cfg.burst as real, now), now);
    if tokens >= 1.0 then (Bucket(tokens - 1.0, now), true) else (Bucket(tokens, now), false)
  }

  function Lookup(m: Buckets, key: string): Option<Bucket> {
    if key in m then Some(m[key]) else None
  }

  function Acquire(cfg: Config, m: Buckets, call: Call): (Buckets, bool) {
    var kept := Evict(cfg, m, call.at);
    var (b, ok) := Take(cfg, Lookup(kept, call.key), call.at);
    (kept[call.key := b], ok)
  }

  /** The limiter's answers to the calls on `key`, in order, over a run that serves every key. */
  function AnswersFor(cfg: Config, m: Buckets, calls: seq<Call>, key: string): seq<bool>
    decreases |calls|
  {
    if calls == [] then [] else
    var (m', ok) := Acquire(cfg, m, calls[0]);
    (if calls[0].key == key then [ok] else []) + AnswersFor(cfg, m', calls[1..], key)
  }

  function TimesOf(calls: seq<Call>, key: string): seq<real> {
    if calls == [] then [] else
    (if calls[0].key == key then [calls[0].at] else []) + TimesOf(calls[1..], key)
  }

  /** The reference: a single bucket that is never evicted and sees only its own key's calls. */
  function Reference(cfg: Config, b: Option<Bucket>, times: seq<real>): (answers: seq<bool>)
    ensures |answers| == |times|
    decreases |times|
  {
    if times == [] then [] else
    var (b', ok) := Take(cfg, b, times[0]);
    [ok] + Reference(cfg, Some(b'), times[1..])
  }

  ghost predicate Nondecreasing(times: seq<real>) {
    forall i, j :: 0 <= i < j < |times| ==> times[i] <= times[j]
  }

  ghost predicate Monotone(calls: seq<Call>) {
    forall i, j :: 0 <= i < j < |calls| ==> calls[i].at <= calls[j].at
  }

  /** Calls granted with `from <= time <= to`. */
  function GrantsIn(times: seq<real>, answers: seq<bool>, from: real, to: real): nat
    requires |times| == |answers|
  {
    if times == [] then 0 else
    (if answers[0] && from <= times[0] <= to then 1 else 0) + GrantsIn(times[1..], answers[1..], from, to)
  }

  ghost predicate BucketOk(cfg: Config, b: Bucket) {
    0.0 <= b.tokens <= cfg.burst as real
  }

  /** Tokens accrued over a duration. */
  function Accrued(cfg: Config, d: real): real {
    d * cfg.ratePerSec
  }

  lemma AccruedMonotone(cfg: Config, x: real, y: real)
    requires cfg.Sensible() && 0.0 <= x <= y
    ensures 0.0 <= Accrued(cfg, x) <= Accrued(cfg, y)
  {
    assert Accrued(cfg, y) - Accrued(cfg, x) == (y - x) * cfg.ratePerSec;
  }

  lemma AccruedAdds(cfg: Config, x: real, y: real)
    ensures Accrued(cfg, x + y) == Accrued(cfg, x) + Accrued(cfg, y)
  {
  }

  lemma TakeKeepsBucketOk(cfg: Config, b: Option<Bucket>, now: real)
    requires cfg.Sensible() && (b.Some? ==> BucketOk(cfg, b.value))
    ensures BucketOk(cfg, Take(cfg, b, now).0)
  {
    var c := if b.Some? then b.value else Bucket(cfg.burst as real, now);
    AccruedMonotone(cfg, 0.0, Elapsed(now, c.lastRefill));
  }

  /**
   What ties the map to the reference bucket: they agree, or the map has dropped
   a bucket that by `now` has been idle for the eviction time.
   */
  ghost predicate Tracks(cfg: Config, m: Buckets, b: Option<Bucket>, key: string, now: real) {
    && (b.Some? ==> BucketOk(cfg, b.value) && b.value.lastRefill <= now)
    && (key in m ==> b == Some(m[key]))
    && (key !in m && b.Some? ==> now - b.value.lastRefill >= cfg.idleEvict)
  }

  lemma EvictedBucketIsFull(cfg: Config, b: Bucket, now: real)
    requires cfg.Sensible() && cfg.EvictsOnlyFull() && BucketOk(cfg, b)
    requires now - b.lastRefill >= cfg.idleEvict
    ensures Take(cfg, Some(b), now) == Take(cfg, None, now)
  {
    AccruedMonotone(cfg, cfg.idleEvict, Elapsed(now, b.lastRefill));
  }

  lemma OwnCallTracks(cfg: Config, m: Buckets, b: Option<Bucket>, c: Call, now: real)
    requires cfg.Sensible() && cfg.EvictsOnlyFull() && now <= c.at && Tracks(cfg, m, b, c.key, now)
    ensures Acquire(cfg, m, c).1 == Take(cfg, b, c.at).1
    ensures Tracks(cfg, Acquire(cfg, m, c).0, Some(Take(cfg, b, c.at).0), c.key, c.at)
  {
    if c.key !in Evict(cfg, m, c.at) && b.Some? {
      EvictedBucketIsFull(cfg, b.value, c.at);
    }
    TakeKeepsBucketOk(cfg, b, c.at);
  }

  lemma OtherCallTracks(cfg: Config, m: Buckets, b: Option<Bucket>, c: Call, key: string, now: real)
    requires now <= c.at && c.key != key && Tracks(cfg, m, b, key, now)
    ensures Tracks(cfg, Acquire(cfg, m, c).0, b, key, c.at)
  {
  }

  lemma {:induction false} EvictionUnobservableFrom(cfg: Config, m: Buckets, b: Option<Bucket>, calls: seq<Call>,
                                                    key: string, now: real)
    requires cfg.Sensible() && cfg.EvictsOnlyFull() && Monotone(calls)
    requires calls != [] ==> now <= calls[0].at
    requires Tracks(cfg, m, b, key, now)
    ensures AnswersFor(cfg, m, calls, key) == Reference(cfg, b, TimesOf(calls, key))
    decreases |calls|
  {
    if calls != [] {
      var c := calls[0];
      var m' := Acquire(cfg, m, c).0;
      if c.key == key {
        OwnCallTracks(cfg, m, b, c, now);
        EvictionUnobservableFrom(cfg, m', Some(Take(cfg, b, c.at).0), calls[1..], key, c.at);
        assert TimesOf(calls, key)[1..] == TimesOf(calls[1..], key);
      } else {
        OtherCallTracks(cfg, m, b, c, key, now);
        EvictionUnobservableFrom(cfg, m', b, calls[1..], key, c.at);
        assert TimesOf(calls, key) == TimesOf(calls[1..], key);
      }
    }
  }

  /** When eviction waits for a full refill it cannot be observed through any answer. */
  lemma EvictionUnobservable(cfg: Config, calls: seq<Call>, key: string)
    requires cfg.Sensible() && cfg.EvictsOnlyFull() && Monotone(calls)
    ensures AnswersFor(cfg, map[], calls, key) == Reference(cfg, None, TimesOf(calls, key))
  {
    EvictionUnobservableFrom(cfg, map[], None, calls, key, if calls == [] then 0.0 else calls[0].at);
  }

  lemma {:induction false} GrantsFromBucket(cfg: Config, b: Bucket, times: seq<real>, from: real, to: real)
    requires cfg.Sensible() && BucketOk(cfg, b) && Nondecreasing(times)
    requires times != [] ==> b.lastRefill <= times[0]
    requires b.lastRefill <= to
    ensures GrantsIn(times, Reference(cfg, Some(b), times), from, to) as real
         <= b.tokens + Accrued(cfg, to - b.lastRefill)
    decreases |times|
  {
    AccruedMonotone(cfg, 0.0, to - b.lastRefill);
    if times != [] {
      var t := times[0];
      var (b', ok) := Take(cfg, Some(b), t);
      TakeKeepsBucketOk(cfg, Some(b), t);
      assert Reference(cfg, Some(b), times)[1..] == Reference(cfg, Some(b'), times[1..]);
      if t <= to {
        GrantsFromBucket(cfg, b', times[1..], from, to);
        AccruedAdds(cfg, to - t, t - b.lastRefill);
      } else {
        NoGrantsAfter(times[1..], Reference(cfg, Some(b'), times[1..]), from, to);
      }
    }
  }

  lemma {:induction false} NoGrantsAfter(times: seq<real>, answers: seq<bool>, from: real, to: real)
    requires |times| == |answers| && forall i :: 0 <= i < |times| ==> to < times[i]
    ensures GrantsIn(times, answers, from, to) == 0
  {
    if times != [] {
      NoGrantsAfter(times[1..], answers[1..], from, to);
    }
  }

  /** A bucket never grants more than `burst + rate * length` calls in a window. */
  lemma {:induction false} ReferenceWindowBound(cfg: Config, b: Option<Bucket>, times: seq<real>, from: real, to: real)
    requires cfg.Sensible() && Nondecreasing(times) && from <= to
    requires b.Some? ==> BucketOk(cfg, b.value)
    ensures GrantsIn(times, Reference(cfg, b, times), from, to) as real
         <= cfg.burst as real + Accrued(cfg, to - from)
    decreases |times|
  {
    AccruedMonotone(cfg, 0.0, to - from);
    if times != [] {
      var t := times[0];
      var (b', ok) := Take(cfg, b, t);
      TakeKeepsBucketOk(cfg, b, t);
      assert Reference(cfg, b, times)[1..] == Reference(cfg, Some(b'), times[1..]);
      if t < from {
        ReferenceWindowBound(cfg, Some(b'), times[1..], from, to);
      } else if t <= to {
        GrantsFromBucket(cfg, b', times[1..], from, to);
        AccruedMonotone(cfg, to - t, to - from);
      } else {
        NoGrantsAfter(times[1..], Reference(cfg, Some(b'), times[1..]), from, to);
      }
    }
  }

  lemma {:induction false} TimesOfMonotone(calls: seq<Call>, key: string)
    requires Monotone(calls)
    ensures Nondecreasing(TimesOf(calls, key))
    ensures forall i :: 0 <= i < |TimesOf(calls, key)| ==> calls != [] && calls[0].at <= TimesOf(calls, key)[i]
  {
    if calls != [] {
      TimesOfMonotone(calls[1..], key);
    }
  }

  lemma {:induction false} AnswersMatchTimes(cfg: Config, m: Buckets, calls: seq<Call>, key: string)
    ensures |AnswersFor(cfg, m, calls, key)| == |TimesOf(calls, key)|
    decreases |calls|
  {
    if calls != [] {
      AnswersMatchTimes(cfg, Acquire(cfg, m, calls[0]).0, calls[1..], key);
    }
  }

  /** Grants to `key` in a window of a run from the empty map. */
  function Granted(cfg: Config, calls: seq<Call>, key: string, from: real, to: real): nat {
    AnswersMatchTimes(cfg, map[], calls, key);
    GrantsIn(TimesOf(calls, key), AnswersFor(cfg, map[], calls, key), from, to)
  }

  ghost predicate WithinRate(cfg: Config, calls: seq<Call>, key: string, from: real, to: real) {
    Granted(cfg, calls, key, from, to) as real <= cfg.burst as real + Accrued(cfg, to - from)
  }

  /** The rate limit over every run, evictions and re-creations included. */
  lemma WindowBound(cfg: Config, calls: seq<Call>, key: string, from: real, to: real)
    requires cfg.Sensible() && cfg.EvictsOnlyFull() && Monotone(calls) && from <= to
    ensures WithinRate(cfg, calls, key, from, to)
  {
    EvictionUnobservable(cfg, calls, key);
    TimesOfMonotone(calls, key);
    ReferenceWindowBound(cfg, None, TimesOf(calls, key), from, to);
  }

  ghost predicate AllTrue(answers: seq<bool>) {
    forall i :: 0 <= i < |answers| ==> answers[i]
  }

  /** Consecutive times lie at least one token's refill apart. */
  ghost predicate Spaced(cfg: Config, times: seq<real>) {
    forall i, j :: 0 <= i && j == i + 1 < |times| ==> times[i] <= times[j] && Accrued(cfg, times[j] - times[i]) >= 1.0
  }

  lemma SpacedTake(cfg: Config, b: Option<Bucket>, now: real)
    requires cfg.Sensible() && cfg.burst >= 1
    requires b.Some? ==>
               BucketOk(cfg, b.value) && b.value.lastRefill <= now && Accrued(cfg, now - b.value.lastRefill) >= 1.0
    ensures var (b', ok) := Take(cfg, b, now);
            ok && BucketOk(cfg, b') && b'.lastRefill == now
  {
    TakeKeepsBucketOk(cfg, b, now);
    if b.Some? {
      assert Elapsed(now, b.value.lastRefill) == now - b.value.lastRefill;
    }
  }

  /** The key's bucket, if it is still in the map, has had a token's time to refill before the key's next call. */
  ghost predicate Rested(cfg: Config, m: Buckets, key: string, next: seq<real>) {
    key in m ==>
      && BucketOk(cfg, m[key])
      && (next != [] ==> m[key].lastRefill <= next[0] && Accrued(cfg, next[0] - m[key].lastRefill) >= 1.0)
  }

  lemma OwnCallRests(cfg: Config, m: Buckets, c: Call, rest: seq<real>)
    requires cfg.Sensible() && cfg.burst >= 1 && Rested(cfg, m, c.key, [c.at] + rest)
    requires rest != [] ==> c.at <= rest[0] && Accrued(cfg, rest[0] - c.at) >= 1.0
    ensures Acquire(cfg, m, c).1 && Rested(cfg, Acquire(cfg, m, c).0, c.key, rest)
  {
    SpacedTake(cfg, Lookup(Evict(cfg, m, c.at), c.key), c.at);
  }

  lemma OtherCallRests(cfg: Config, m: Buckets, c: Call, key: string, next: seq<real>)
    requires c.key != key && Rested(cfg, m, key, next)
    ensures Rested(cfg, Acquire(cfg, m, c).0, key, next)
  {
  }

  lemma SpacedTail(cfg: Config, at: real, rest: seq<real>)
    requires Spaced(cfg, [at] + rest)
    ensures Spaced(cfg, rest) && (rest != [] ==> at <= rest[0] && Accrued(cfg, rest[0] - at) >= 1.0)
  {
    var times := [at] + rest;
    forall i, j | 0 <= i && j == i + 1 < |rest|
      ensures rest[i] <= rest[j] && Accrued(cfg, rest[j] - rest[i]) >= 1.0
    {
      assert rest[i] == times[i + 1] && rest[j] == times[j + 1];
    }
    if rest != [] {
      assert times[0] == at && times[1] == rest[0];
    }
  }

  lemma {:induction false} RestedIsGranted(cfg: Config, m: Buckets, calls: seq<Call>, key: string)
    requires cfg.Sensible() && cfg.burst >= 1
    requires Spaced(cfg, TimesOf(calls, key)) && Rested(cfg, m, key, TimesOf(calls, key))
    ensures AllTrue(AnswersFor(cfg, m, calls, key))
    decreases |calls|
  {
    if calls != [] {
      var c, rest := calls[0], TimesOf(calls[1..], key);
      if c.key == key {
        SpacedTail(cfg, c.at, rest);
        OwnCallRests(cfg, m, c, rest);
      } else {
        assert [] + rest == rest;
        OtherCallRests(cfg, m, c, key, rest);
      }
      RestedIsGranted(cfg, Acquire(cfg, m, c).0, calls[1..], key);
    }
  }

  /**
   The other side of the limit: a caller that stays within the rate is never refused, whatever other
   callers do and however early buckets are evicted, exactly when a bucket holds any token at all.
   */
  lemma SpacedCallsAreGranted(cfg: Config)
    requires cfg.Sensible()
    ensures cfg.burst >= 1 <==>
            forall calls, key :: Spaced(cfg, TimesOf(calls, key)) ==> AllTrue(AnswersFor(cfg, map[], calls, key))
  {
    if cfg.burst >= 1 {
      forall calls, key | Spaced(cfg, TimesOf(calls, key))
        ensures AllTrue(AnswersFor(cfg, map[], calls, key))
      {
        RestedIsGranted(cfg, map[], calls, key);
      }
    } else {
      var calls := [Call("k", 0.0)];
      assert calls[1..] == [] && TimesOf(calls, "k") == [0.0];
      assert !Take(cfg, None, 0.0).1;
      assert AnswersFor(cfg, map[], calls, "k")[0] == false;
    }
  }

  // --- The side condition is exact ---

  function Batch(n: nat, at: real): (b: seq<Call>)
    ensures |b| == n && forall i :: 0 <= i < n ==> b[i] == Call("k", at)
  {
    if n == 0 then [] else [Call("k", at)] + Batch(n - 1, at)
  }

  /** Drain the bucket, wait exactly the eviction time, drain it again. */
  function DrainTwice(cfg: Config): seq<Call> {
    Batch(cfg.burst, 0.0) + Batch(cfg.burst, cfg.idleEvict)
  }

  ghost predicate Ready(cfg: Config, m: Buckets, at: real, n: nat) {
    "k" in Evict(cfg, m, at) ==> Refill(cfg, m["k"], at) >= n as real
  }

  lemma GrantOne(cfg: Config, m: Buckets, n: nat, at: real)
    requires 0 < n <= cfg.burst && Ready(cfg, m, at, n)
    ensures var (m', ok) := Acquire(cfg, m, Call("k", at));
            ok && Ready(cfg, m', at, n - 1) && "k" in m' && m'["k"].lastRefill == at
  {
  }

  /** A batch no larger than the tokens available is granted in full. */
  lemma {:induction false} BatchGranted(cfg: Config, m: Buckets, n: nat, at: real, rest: seq<Call>)
    returns (m': Buckets)
    requires n <= cfg.burst && Ready(cfg, m, at, n)
    ensures AllTrue(AnswersFor(cfg, m', rest, "k")) ==> AllTrue(AnswersFor(cfg, m, Batch(n, at) + rest, "k"))
    ensures if n == 0 then m' == m else "k" in m' && m'["k"].lastRefill == at
    decreases n
  {
    if n == 0 {
      assert Batch(n, at) + rest == rest;
      m' := m;
    } else {
      GrantOne(cfg, m, n, at);
      var (m1, ok) := Acquire(cfg, m, Call("k", at));
      assert (Batch(n, at) + rest)[1..] == Batch(n - 1, at) + rest;
      m' := BatchGranted(cfg, m1, n - 1, at, rest);
      assert AnswersFor(cfg, m, Batch(n, at) + rest, "k") == [true] + AnswersFor(cfg, m1, Batch(n - 1, at) + rest, "k");
      if n == 1 {
        assert m' == m1;
      }
    }
  }

  lemma {:induction false} AllCount(times: seq<real>, answers: seq<bool>, from: real, to: real)
    requires |times| == |answers|
    requires forall i :: 0 <= i < |times| ==> answers[i] && from <= times[i] <= to
    ensures GrantsIn(times, answers, from, to) == |times|
  {
    if times != [] {
      AllCount(times[1..], answers[1..], from, to);
    }
  }

  lemma {:induction false} TimesOfOneKey(calls: seq<Call>)
    requires forall i :: 0 <= i < |calls| ==> calls[i].key == "k"
    ensures |TimesOf(calls, "k")| == |calls|
    ensures forall i :: 0 <= i < |calls| ==> TimesOf(calls, "k")[i] == calls[i].at
  {
    if calls != [] {
      TimesOfOneKey(calls[1..]);
    }
  }

  lemma DrainTwiceGranted(cfg: Config)
    requires cfg.Sensible() && 0 < cfg.burst
    ensures AllTrue(AnswersFor(cfg, map[], DrainTwice(cfg), "k"))
  {
    var second := Batch(cfg.burst, cfg.idleEvict);
    var m1 := BatchGranted(cfg, map[], cfg.burst, 0.0, second);
    assert Ready(cfg, m1, cfg.idleEvict, cfg.burst);
    var m2 := BatchGranted(cfg, m1, cfg.burst, cfg.idleEvict, []);
    assert second + [] == second;
  }

  /** If a bucket can be dropped before it is full again, draining twice beats the limit. */
  lemma EarlyEvictionBreaksTheLimit(cfg: Config)
    requires cfg.Sensible() && !cfg.EvictsOnlyFull()
    ensures Monotone(DrainTwice(cfg))
    ensures Granted(cfg, DrainTwice(cfg), "k", 0.0, cfg.idleEvict) == 2 * cfg.burst
    ensures !WithinRate(cfg, DrainTwice(cfg), "k", 0.0, cfg.idleEvict)
  {
    AccruedMonotone(cfg, 0.0, cfg.idleEvict);
    DrainTwiceGranted(cfg);
    var calls := DrainTwice(cfg);
    TimesOfOneKey(calls);
    AnswersMatchTimes(cfg, map[], calls, "k");
    AllCount(TimesOf(calls, "k"), AnswersFor(cfg, map[], calls, "k"), 0.0, cfg.idleEvict);
  }

  /** The limit holds over all runs exactly when an idle bucket is full before it is dropped. */
  lemma WindowBoundIff(cfg: Config)
    requires cfg.Sensible()
    ensures cfg.EvictsOnlyFull() <==>
            forall calls, key, from, to :: Monotone(calls) && from <= to ==> WithinRate(cfg, calls, key, from, to)
  {
    if cfg.EvictsOnlyFull() {
      forall calls, key, from, to | Monotone(calls) && from <= to
        ensures WithinRate(cfg, calls, key, from, to)
      {
        WindowBound(cfg, calls, key, from, to);
      }
    } else {
      EarlyEvictionBreaksTheLimit(cfg);
    }
  }

  lemma EarlyEvictionShows(cfg: Config)
    requires cfg.Sensible() && !cfg.EvictsOnlyFull()
    ensures Monotone(DrainTwice(cfg))
    ensures AnswersFor(cfg, map[], DrainTwice(cfg), "k") != Reference(cfg, None, TimesOf(DrainTwice(cfg), "k"))
  {
    EarlyEvictionBreaksTheLimit(cfg);
    TimesOfMonotone(DrainTwice(cfg), "k");
    ReferenceWindowBound(cfg, None, TimesOf(DrainTwice(cfg), "k"), 0.0, cfg.idleEvict);
  }

  /** Eviction is invisible in all runs under exactly the same condition. */
  lemma EvictionUnobservableIff(cfg: Config)
    requires cfg.Sensible()
    ensures cfg.EvictsOnlyFull() <==>
            forall calls, key :: Monotone(calls) ==>
              AnswersFor(cfg, map[], calls, key) == Reference(cfg, None, TimesOf(calls, key))
  {
    if cfg.EvictsOnlyFull() {
      forall calls, key | Monotone(calls)
        ensures AnswersFor(cfg, map[], calls, key) == Reference(cfg, None, TimesOf(calls, key))
      {
        EvictionUnobservable(cfg, calls, key);
      }
    } else {
      EarlyEvictionShows(cfg);
    }
  }

  // --- Exactly when a call is granted ---

  function Grants(answers: seq<bool>): nat {
    if answers == [] then 0 else Grants(answers[..|answers| - 1]) + (if answers[|answers| - 1] then 1 else 0)
  }

  /** One more grant at the k-th time would keep the window that opens at the j-th within the limit. */
  ghost predicate FitsSince(cfg: Config, times: seq<real>, answers: seq<bool>, j: nat, k: nat)
    requires j <= k < |times| == |answers|
  {
    (1 + Grants(answers[j..k])) as real <= cfg.burst as real + (times[k] - times[j]) * cfg.ratePerSec
  }

  /** Every call is granted exactly when it fits into the windows opened by all calls up to it. */
  ghost predicate GrantsWhatFits(cfg: Config, times: seq<real>, answers: seq<bool>) {
    && |answers| == |times|
    && forall k :: 0 <= k < |times| ==>
         (answers[k] <==> forall j :: 0 <= j <= k ==> FitsSince(cfg, times, answers, j, k))
  }

  /** What the window that opens at the j-th call leaves of the limit at the k-th. */
  function Room(cfg: Config, times: seq<real>, answers: seq<bool>, j: nat, k: nat): real
    requires j <= k < |times| == |answers|
  {
    cfg.burst as real + Accrued(cfg, times[k] - times[j]) - Grants(answers[j..k]) as real
  }

  /** The tokens in a bucket when it is called on. */
  function Available(cfg: Config, b: Option<Bucket>, now: real): real {
    Refill(cfg, if b.Some? then b.value else Bucket(cfg.burst as real, now), now)
  }

  /** The reference bucket before its k-th call. */
  function BucketBefore(cfg: Config, b: Option<Bucket>, times: seq<real>, k: nat): Option<Bucket>
    requires k <= |times|
  {
    if k == 0 then b else Some(Take(cfg, BucketBefore(cfg, b, times, k - 1), times[k - 1]).0)
  }

  lemma {:induction false} BucketAfterFirst(cfg: Config, b: Option<Bucket>, times: seq<real>, k: nat)
    requires 0 < k <= |times|
    ensures BucketBefore(cfg, b, times, k) == BucketBefore(cfg, Some(Take(cfg, b, times[0]).0), times[1..], k - 1)
  {
    if k > 1 {
      BucketAfterFirst(cfg, b, times, k - 1);
    }
  }

  lemma {:induction false} AnswerAt(cfg: Config, b: Option<Bucket>, times: seq<real>, k: nat)
    requires k < |times|
    ensures Reference(cfg, b, times)[k] <==> Available(cfg, BucketBefore(cfg, b, times, k), times[k]) >= 1.0
    decreases k
  {
    if k > 0 {
      BucketAfterFirst(cfg, b, times, k);
      AnswerAt(cfg, Some(Take(cfg, b, times[0]).0), times[1..], k - 1);
    }
  }

  /** A room at the k-th call has, by the next, grown by what accrues and shrunk by the grant. */
  lemma RoomLater(cfg: Config, times: seq<real>, answers: seq<bool>, j: nat, k: nat)
    requires j <= k && k + 1 < |times| == |answers|
    ensures Room(cfg, times, answers, j, k + 1) ==
            Room(cfg, times, answers, j, k) + Accrued(cfg, times[k + 1] - times[k]) - (if answers[k] then 1.0 else 0.0)
  {
    assert answers[j..k + 1][..k - j] == answers[j..k];
    AccruedAdds(cfg, times[k + 1] - times[k], times[k] - times[j]);
  }

  lemma RefillLater(cfg: Config, b: Option<Bucket>, t: real, next: real)
    requires cfg.Sensible() && t <= next
    ensures var left := Available(cfg, b, t) - (if Available(cfg, b, t) >= 1.0 then 1.0 else 0.0);
            var full := left + Accrued(cfg, next - t);
            Available(cfg, Some(Take(cfg, b, t).0), next) ==
            if full <= cfg.burst as real then full else cfg.burst as real
  {
  }

  /** The tokens available to a call are the least of the rooms left by the windows that end in it. */
  lemma {:induction false} LeastRoom(cfg: Config, times: seq<real>, k: nat) returns (least: nat)
    requires cfg.Sensible() && Nondecreasing(times) && k < |times|
    ensures var answers := Reference(cfg, None, times);
            var tokens := Available(cfg, BucketBefore(cfg, None, times, k), times[k]);
            && (forall j :: 0 <= j <= k ==> tokens <= Room(cfg, times, answers, j, k))
            && least <= k && tokens == Room(cfg, times, answers, least, k)
  {
    var answers := Reference(cfg, None, times);
    if k == 0 {
      assert Accrued(cfg, 0.0) == 0.0;
      return 0;
    }
    var before := BucketBefore(cfg, None, times, k - 1);
    least := LeastRoom(cfg, times, k - 1);
    AnswerAt(cfg, None, times, k - 1);
    RefillLater(cfg, before, times[k - 1], times[k]);
    forall j | 0 <= j < k
      ensures Room(cfg, times, answers, j, k) ==
              Room(cfg, times, answers, j, k - 1) + Accrued(cfg, times[k] - times[k - 1]) -
              (if answers[k - 1] then 1.0 else 0.0)
    {
      RoomLater(cfg, times, answers, j, k - 1);
    }
    assert Room(cfg, times, answers, k, k) == cfg.burst as real by {
      assert Accrued(cfg, 0.0) == 0.0 && answers[k..k] == [];
    }
    if Available(cfg, BucketBefore(cfg, None, times, k), times[k]) == cfg.burst as real {
      least := k;
    }
  }

  lemma ReferenceGrantsWhatFits(cfg: Config, times: seq<real>)
    requires cfg.Sensible() && Nondecreasing(times)
    ensures GrantsWhatFits(cfg, times, Reference(cfg, None, times))
  {
    var answers := Reference(cfg, None, times);
    forall k | 0 <= k < |times|
      ensures answers[k] <==> forall j :: 0 <= j <= k ==> FitsSince(cfg, times, answers, j, k)
    {
      AnswerAt(cfg, None, times, k);
      var least := LeastRoom(cfg, times, k);
      assert forall j :: 0 <= j <= k ==>
          (FitsSince(cfg, times, answers, j, k) <==> Room(cfg, times, answers, j, k) >= 1.0);
    }
  }

  lemma {:induction false} AllAreGrants(answers: seq<bool>)
    requires AllTrue(answers)
    ensures Grants(answers) == |answers|
  {
    if answers != [] {
      AllAreGrants(answers[..|answers| - 1]);
    }
  }

  lemma TooManyGrants(cfg: Config, times: seq<real>, answers: seq<bool>)
    requires |times| == |answers| == 2 * cfg.burst && cfg.burst > 0 && AllTrue(answers)
    requires (times[|times| - 1] - times[0]) * cfg.ratePerSec < cfg.burst as real
    ensures !GrantsWhatFits(cfg, times, answers)
  {
    var last := |times| - 1;
    AllAreGrants(answers[0..last]);
    assert Grants(answers[0..last]) == last;
    assert !FitsSince(cfg, times, answers, 0, last);
    assert answers[last];
  }

  /** The last call of the two drains is granted although it does not fit. */
  lemma EarlyEvictionGrantsTooMuch(cfg: Config)
    requires cfg.Sensible() && !cfg.EvictsOnlyFull()
    ensures Monotone(DrainTwice(cfg))
    ensures !GrantsWhatFits(cfg, TimesOf(DrainTwice(cfg), "k"), AnswersFor(cfg, map[], DrainTwice(cfg), "k"))
  {
    EarlyEvictionBreaksTheLimit(cfg);
    AccruedMonotone(cfg, 0.0, cfg.idleEvict);
    DrainTwiceGranted(cfg);
    var calls := DrainTwice(cfg);
    TimesOfOneKey(calls);
    AnswersMatchTimes(cfg, map[], calls, "k");
    var times := TimesOf(calls, "k");
    assert times[|times| - 1] == cfg.idleEvict && times[0] == 0.0;
    TooManyGrants(cfg, times, AnswersFor(cfg, map[], calls, "k"));
  }

  /**
   When a call is granted, told by the calls alone: over every run of nondecreasing times the limiter
   grants a call exactly when, for each earlier call of its key and itself, one more than the grants
   since then is at most `burst + rate * elapsed`.  The side condition is exact here too.
   */
  lemma GrantedIff(cfg: Config)
    requires cfg.Sensible()
    ensures cfg.EvictsOnlyFull() <==>
            forall calls, key :: Monotone(calls) ==>
              GrantsWhatFits(cfg, TimesOf(calls, key), AnswersFor(cfg, map[], calls, key))
  {
    if cfg.EvictsOnlyFull() {
      forall calls, key | Monotone(calls)
        ensures GrantsWhatFits(cfg, TimesOf(calls, key), AnswersFor(cfg, map[], calls, key))
      {
        EvictionUnobservable(cfg, calls, key);
        TimesOfMonotone(calls, key);
        ReferenceGrantsWhatFits(cfg, TimesOf(calls, key));
      }
    } else {
      EarlyEvictionGrantsTooMuch(cfg);
    }
  }

  class RateLimiter {
    const cfg: Config
    var buckets: Buckets

    constructor (cfg: Config)
      ensures this.cfg == cfg && buckets == map[]
    {
      this.cfg := cfg;
      buckets := map[];
    }

    method TryAcquireAt(key: string, now: real) returns (granted: bool)
      modifies this
      ensures (buckets, granted) == Acquire(cfg, old(buckets), Call(key, now))
      ensures forall k :: k in buckets ==> k == key || Elapsed(now, buckets[k].lastRefill) < cfg.idleEvict
      ensures forall k :: k in old(buckets) && k != key && Elapsed(now, old(buckets)[k].lastRefill) < cfg.idleEvict ==>
                            k in buckets && buckets[k] == old(buckets)[k]
      ensures key in buckets && buckets[key].lastRefill == now
    {
      buckets := map k | k in buckets && Elapsed(now, buckets[k].lastRefill) < cfg.idleEvict :: buckets[k];
      if key !in buckets {
        buckets := buckets[key := Bucket(cfg.burst as real, now)];
      }
      var tokens := Refill(cfg, buckets[key], now);
      granted := tokens >= 1.0;
      buckets := buckets[key := Bucket(if granted then tokens - 1.0 else tokens, now)];
      assert buckets == Acquire(cfg, old(buckets), Call(key, now)).0;
    }
  }
}
