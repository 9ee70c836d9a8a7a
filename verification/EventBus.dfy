/**
 The session event bus: monotonic ids, a bounded replay ring, and the stream
 handler that replays past `Last-Event-ID` and then tails the live broadcast
 (section 9.2.4 of the WHATWG HTML Standard).
 */
module EventBus {
  /** An event is whatever the publisher hands over; only its position matters here. */
  type Event = string

  datatype Entry = Entry(id: nat, event: Event)

  datatype Replay = Events(entries: seq<Entry>) | Gap | Caught

  /** The unbounded log of all publishes: the n-th event has id n + 1. */
  function Numbered(log: seq<Event>): (entries: seq<Entry>)
    ensures |entries| == |log|
    ensures forall i :: 0 <= i < |log| ==> entries[i] == Entry(i + 1, log[i])
  {
    seq(|log|, i requires 0 <= i < |log| => Entry(i + 1, log[i]))
  }

  /** How many entries the ring holds after `n` publishes; a zero capacity still keeps one. */
  function Kept(n: nat, capacity: nat): nat {
    var room := if capacity == 0 then 1 else capacity;
    if n <= room then n else room
  }

  /** The last `Kept` entries of the log. */
  function Window(log: seq<Event>, capacity: nat): seq<Entry> {
    Numbered(log)[|log| - Kept(|log|, capacity)..]
  }

  /** An event newer than `lastId` has been published and is no longer in the window. */
  ghost predicate Dropped(log: seq<Event>, capacity: nat, lastId: nat) {
    exists i :: 0 <= i < |log| && Numbered(log)[i].id > lastId && Numbered(log)[i] !in Window(log, capacity)
  }

  /** What a resuming client is owed, stated on the unbounded log. */
  ghost function Owed(log: seq<Event>, capacity: nat, lastId: nat): Replay {
    if Dropped(log, capacity, lastId) then Gap
    else if lastId < |log| then Events(Numbered(log)[lastId..])
    else Caught
  }

  function Newer(ring: seq<Entry>, lastId: nat): seq<Entry> {
    if ring == [] then [] else
    var rest := Newer(ring[..|ring| - 1], lastId);
    if ring[|ring| - 1].id > lastId then rest + [ring[|ring| - 1]] else rest
  }

  /** The ring's own answer, whatever order its entries are in. */
  function RingReplay(ring: seq<Entry>, lastId: nat): Replay {
    if ring == [] then Caught
    else if lastId + 1 < ring[0].id then Gap
    else if Newer(ring, lastId) == [] then Caught
    else Events(Newer(ring, lastId))
  }

  /** The ring after one more entry. */
  function Pushed(ring: seq<Entry>, capacity: nat, e: Entry): seq<Entry> {
    (if |ring| >= capacity && ring != [] then ring[1..] else ring) + [e]
  }

  lemma PushKeepsWindow(log: seq<Event>, capacity: nat, event: Event)
    ensures Pushed(Window(log, capacity), capacity, Entry(|log| + 1, event)) == Window(log + [event], capacity)
  {
    assert Numbered(log + [event]) == Numbered(log) + [Entry(|log| + 1, event)];
  }

  lemma {:induction false} NewerOfRun(entries: seq<Entry>, first: nat, lastId: nat)
    requires forall i :: 0 <= i < |entries| ==> entries[i].id == first + i
    ensures Newer(entries, lastId) ==
            if lastId < first then entries
            else if lastId - first + 1 <= |entries| then entries[lastId - first + 1..]
            else []
  {
    if entries != [] {
      NewerOfRun(entries[..|entries| - 1], first, lastId);
      assert entries == entries[..|entries| - 1] + [entries[|entries| - 1]];
    }
  }

  lemma DroppedIff(log: seq<Event>, capacity: nat, lastId: nat)
    ensures Dropped(log, capacity, lastId) <==> lastId < |log| - Kept(|log|, capacity)
  {
    var all, oldest := Numbered(log), |log| - Kept(|log|, capacity);
    if lastId < oldest {
      assert all[lastId].id > lastId && all[lastId] !in all[oldest..];
    } else {
      forall i | 0 <= i < |log| && all[i].id > lastId
        ensures all[i] in all[oldest..]
      {
        assert all[i] == all[oldest..][i - oldest];
      }
    }
  }

  /** For serial publishes the ring answers exactly what the log owes. */
  lemma SerialReplayIsExact(log: seq<Event>, capacity: nat, lastId: nat)
    ensures RingReplay(Window(log, capacity), lastId) == Owed(log, capacity, lastId)
  {
    DroppedIff(log, capacity, lastId);
    var oldest := |log| - Kept(|log|, capacity);
    NewerOfRun(Window(log, capacity), oldest + 1, lastId);
    if oldest <= lastId < |log| {
      assert Numbered(log)[oldest..][lastId - oldest..] == Numbered(log)[lastId..];
    }
  }

  class Bus {
    var nextId: nat
    var ring: seq<Entry>
    const ringCapacity: nat
    ghost var log: seq<Event>

    ghost predicate Valid()
      reads this
    {
      nextId == |log| + 1 && ring == Window(log, ringCapacity)
    }

    constructor (ringCapacity: nat)
      ensures Valid() && log == [] && this.ringCapacity == ringCapacity
    {
      nextId, ring, log := 1, [], [];
      this.ringCapacity := ringCapacity;
    }

    /** Serial publishing: consecutive ids, and the ring stays the tail of the log. */
    method Publish(event: Event) returns (id: nat)
      requires Valid()
      modifies this
      ensures Valid() && log == old(log) + [event] && id == |log|
    {
      id := nextId;
      nextId := nextId + 1;
      if |ring| >= ringCapacity && ring != [] {
        ring := ring[1..];
      }
      ring := ring + [Entry(id, event)];
      assert ring == Pushed(old(ring), ringCapacity, Entry(id, event));
      PushKeepsWindow(log, ringCapacity, event);
      log := log + [event];
    }

    /** Gap exactly when something newer was dropped; otherwise the exact rest of the log. */
    method ReplayAfter(lastId: nat) returns (r: Replay)
      requires Valid()
      ensures r == Owed(log, ringCapacity, lastId)
    {
      if ring == [] {
        r := Caught;
      } else if lastId + 1 < ring[0].id {
        r := Gap;
      } else {
        var entries := [];
        for i := 0 to |ring|
          invariant entries == Newer(ring[..i], lastId)
        {
          assert ring[..i + 1][..i] == ring[..i];
          if ring[i].id > lastId {
            entries := entries + [ring[i]];
          }
        }
        assert ring[..|ring|] == ring;
        r := if entries == [] then Caught else Events(entries);
      }
      assert r == RingReplay(ring, lastId);
      SerialReplayIsExact(log, ringCapacity, lastId);
    }
  }

  // --- A client that resumes from its last id ---

  datatype Client = Client(log: seq<Event>, lastId: nat, received: seq<Entry>, sawGap: bool)

  datatype ClientStep = Published(event: Event) | Resumed

  ghost function ClientNext(c: Client, capacity: nat, step: ClientStep): Client {
    match step
    case Published(event) => c.(log := c.log + [event])
    case Resumed =>
      var r := RingReplay(Window(c.log, capacity), c.lastId);
      if r.Gap? then c.(sawGap := true)
      else if r.Events? && r.entries != []
      then c.(received := c.received + r.entries, lastId := r.entries[|r.entries| - 1].id)
      else c
  }

  ghost function ClientAfter(c: Client, capacity: nat, steps: seq<ClientStep>): Client
    decreases |steps|
  {
    if steps == [] then c else ClientAfter(ClientNext(c, capacity, steps[0]), capacity, steps[1..])
  }

  ghost predicate Current(c: Client) {
    c.lastId <= |c.log| && (!c.sawGap ==> c.received == Numbered(c.log)[..c.lastId])
  }

  /** What is owed without a gap continues the log at `lastId` and ends with its last entry. */
  lemma OwedContinues(log: seq<Event>, capacity: nat, lastId: nat)
    requires lastId <= |log| && !Owed(log, capacity, lastId).Gap?
    ensures var r := Owed(log, capacity, lastId);
            if lastId == |log| then r == Caught
            else r.Events? && r.entries != [] && r.entries[|r.entries| - 1].id == |log| &&
                 Numbered(log)[..lastId] + r.entries == Numbered(log)[..|log|]
  {
    var all := Numbered(log);
    if lastId < |log| {
      assert all[..lastId] + all[lastId..] == all[..|log|];
      assert all[lastId..][|log| - lastId - 1] == all[|log| - 1];
    }
  }

  lemma ResumeStaysCurrent(c: Client, capacity: nat)
    requires Current(c)
    ensures Current(ClientNext(c, capacity, Resumed))
  {
    SerialReplayIsExact(c.log, capacity, c.lastId);
    if !Owed(c.log, capacity, c.lastId).Gap? {
      OwedContinues(c.log, capacity, c.lastId);
    }
  }

  lemma {:induction false} ClientStaysCurrent(c: Client, capacity: nat, steps: seq<ClientStep>)
    requires Current(c)
    ensures Current(ClientAfter(c, capacity, steps))
    decreases |steps|
  {
    if steps != [] {
      var d := ClientNext(c, capacity, steps[0]);
      if steps[0].Resumed? {
        ResumeStaysCurrent(c, capacity);
      } else {
        assert Numbered(d.log)[..c.lastId] == Numbered(c.log)[..c.lastId];
      }
      ClientStaysCurrent(d, capacity, steps[1..]);
    }
  }

  /** Until it is told of a gap, a client has received every event up to its last id once and in order. */
  lemma NoLossNoDuplicateBeforeGap(capacity: nat, steps: seq<ClientStep>)
    ensures var c := ClientAfter(Client([], 0, [], false), capacity, steps);
            c.lastId <= |c.log| && (!c.sawGap ==> c.received == Numbered(c.log)[..c.lastId])
  {
    ClientStaysCurrent(Client([], 0, [], false), capacity, steps);
  }

  lemma {:induction false} ClientAfterSnoc(c: Client, capacity: nat, steps: seq<ClientStep>, step: ClientStep)
    ensures ClientAfter(c, capacity, steps + [step]) == ClientNext(ClientAfter(c, capacity, steps), capacity, step)
    decreases |steps|
  {
    if steps != [] {
      assert (steps + [step])[1..] == steps[1..] + [step];
      ClientAfterSnoc(ClientNext(c, capacity, steps[0]), capacity, steps[1..], step);
    }
  }

  /** A publish adds its event to the log and leaves the client as it is. */
  lemma PublishKeepsClient(capacity: nat, steps: seq<ClientStep>, event: Event)
    ensures var c := ClientAfter(Client([], 0, [], false), capacity, steps);
            ClientAfter(Client([], 0, [], false), capacity, steps + [Published(event)]) ==
              Client(c.log + [event], c.lastId, c.received, c.sawGap)
  {
    ClientAfterSnoc(Client([], 0, [], false), capacity, steps, Published(event));
  }

  /**
   A resume in any run: the client is told of a gap exactly when an event it has not seen is no longer
   kept, and otherwise it is brought up to the end of the log.
   */
  lemma ResumeCatchesUp(capacity: nat, steps: seq<ClientStep>)
    ensures var c := ClientAfter(Client([], 0, [], false), capacity, steps);
            var d := ClientAfter(Client([], 0, [], false), capacity, steps + [Resumed]);
            && c.lastId <= |c.log| == |d.log| && d.log == c.log
            && (d.sawGap <==> c.sawGap || Dropped(c.log, capacity, c.lastId))
            && (Dropped(c.log, capacity, c.lastId) ==> d.lastId == c.lastId && d.received == c.received)
            && (!Dropped(c.log, capacity, c.lastId) ==>
                  d.lastId == |c.log| && d.received == c.received + Numbered(c.log)[c.lastId..])
  {
    var c := ClientAfter(Client([], 0, [], false), capacity, steps);
    ClientAfterSnoc(Client([], 0, [], false), capacity, steps, Resumed);
    ClientStaysCurrent(Client([], 0, [], false), capacity, steps);
    SerialReplayIsExact(c.log, capacity, c.lastId);
    if !Dropped(c.log, capacity, c.lastId) {
      OwedContinues(c.log, capacity, c.lastId);
    }
  }

  // --- The stream handler: subscribe, then replay, then tail ---

  /**
   What the handler yields when it subscribed after `subscribed` broadcasts and ran its replay after
   `replayed` pushes onto the ring, with no lag on the live channel.  A publish pushes under the ring's
   lock and broadcasts afterwards, so broadcasts never run ahead of pushes.
   */
  ghost function Yielded(log: seq<Event>, capacity: nat, lastId: nat, subscribed: nat, replayed: nat): seq<Entry>
    requires subscribed <= replayed <= |log|
  {
    var r := RingReplay(Window(log[..replayed], capacity), lastId);
    (if r.Events? then r.entries else []) + Numbered(log)[subscribed..]
  }

  ghost predicate Increasing(entries: seq<Entry>) {
    forall i, j :: 0 <= i < j < |entries| ==> entries[i].id < entries[j].id
  }

  lemma Regroup(all: seq<Entry>, a: nat, b: nat, c: nat)
    requires a <= b <= |all| && c <= |all|
    ensures all[..a] + (all[a..b] + all[c..]) == all[0..b] + all[c..]
    ensures all[..b][a..] == all[a..b]
  {
  }

  /** Overlapping stretches of consecutive entries repeat exactly when the second starts before the first ends. */
  lemma OverlapIff(all: seq<Entry>, a: nat, b: nat, c: nat)
    requires forall i :: 0 <= i < |all| ==> all[i].id == i + 1
    requires a <= c <= b <= |all|
    ensures Increasing(all[a..b] + all[c..]) <==> c == b
  {
    var y := all[a..b] + all[c..];
    if c < b {
      var last := b - a - 1;
      assert y[last] == all[b - 1] && y[last + 1] == all[c];
    } else {
      assert forall i :: 0 <= i < |y| ==> y[i] == all[a + i];
    }
  }

  lemma PrefixNumbered(log: seq<Event>, n: nat)
    requires n <= |log|
    ensures Numbered(log[..n]) == Numbered(log)[..n]
  {
  }

  lemma YieldedIs(log: seq<Event>, capacity: nat, lastId: nat, subscribed: nat, replayed: nat)
    requires lastId <= replayed && subscribed <= replayed <= |log|
    requires !Dropped(log[..replayed], capacity, lastId)
    ensures Yielded(log, capacity, lastId, subscribed, replayed) ==
            Numbered(log)[lastId..replayed] + Numbered(log)[subscribed..]
  {
    SerialReplayIsExact(log[..replayed], capacity, lastId);
    PrefixNumbered(log, replayed);
    Regroup(Numbered(log), lastId, replayed, subscribed);
  }

  /**
   The handler never loses an event it still has.  Together with what the client had before, its stream
   repeats events exactly when some event was pushed before the replay and broadcast after the subscription.
   */
  lemma HandlerRepeatsIff(log: seq<Event>, capacity: nat, lastId: nat, subscribed: nat, replayed: nat)
    requires lastId <= replayed && subscribed <= replayed <= |log|
    requires !Dropped(log[..replayed], capacity, lastId)
    ensures Yielded(log, capacity, lastId, subscribed, replayed) ==
            Numbered(log)[lastId..replayed] + Numbered(log)[subscribed..]
    ensures Increasing(Numbered(log)[..lastId] + Yielded(log, capacity, lastId, subscribed, replayed)) <==>
            subscribed == replayed
    ensures lastId <= subscribed ==>
              (Increasing(Yielded(log, capacity, lastId, subscribed, replayed)) <==> subscribed == replayed)
  {
    YieldedIs(log, capacity, lastId, subscribed, replayed);
    Regroup(Numbered(log), lastId, replayed, subscribed);
    OverlapIff(Numbered(log), 0, replayed, subscribed);
    if lastId <= subscribed {
      OverlapIff(Numbered(log), lastId, replayed, subscribed);
    }
  }

  // --- Interleaved publishers: the id is drawn outside the ring lock ---

  datatype Shared = Shared(nextId: nat, inFlight: set<nat>, ring: seq<Entry>, aged: set<nat>)

  const FRESH := Shared(1, {}, [], {})

  datatype PublisherStep = Draw | Push(id: nat, event: Event)

  function SharedNext(s: Shared, capacity: nat, step: PublisherStep): Shared {
    match step
    case Draw => s.(nextId := s.nextId + 1, inFlight := s.inFlight + {s.nextId})
    case Push(id, event) =>
      if id !in s.inFlight then s else
      Shared(s.nextId, s.inFlight - {id}, Pushed(s.ring, capacity, Entry(id, event)),
             if |s.ring| >= capacity && s.ring != [] then s.aged + {s.ring[0].id} else s.aged)
  }

  function SharedAfter(s: Shared, capacity: nat, steps: seq<PublisherStep>): Shared
    decreases |steps|
  {
    if steps == [] then s else SharedAfter(SharedNext(s, capacity, steps[0]), capacity, steps[1..])
  }

  ghost predicate InRing(ring: seq<Entry>, id: nat) {
    exists i :: 0 <= i < |ring| && ring[i].id == id
  }

  /** Every drawn id is in exactly one place, and the ring repeats none. */
  ghost predicate Accounted(s: Shared, capacity: nat) {
    && 1 <= s.nextId
    && (forall id: nat :: 1 <= id < s.nextId <==> id in s.inFlight || InRing(s.ring, id) || id in s.aged)
    && (forall id: nat :: !(id in s.inFlight && InRing(s.ring, id)))
    && (forall id: nat :: !(id in s.inFlight && id in s.aged))
    && (forall id: nat :: !(InRing(s.ring, id) && id in s.aged))
    && (forall i, j :: 0 <= i < j < |s.ring| ==> s.ring[i].id != s.ring[j].id)
    && |s.ring| <= if capacity == 0 then 1 else capacity
  }

  lemma PushKeepsAccounted(s: Shared, capacity: nat, id: nat, event: Event)
    requires Accounted(s, capacity) && id in s.inFlight
    ensures Accounted(SharedNext(s, capacity, Push(id, event)), capacity)
  {
    var t := SharedNext(s, capacity, Push(id, event));
    var full := |s.ring| >= capacity && s.ring != [];
    var shift := if full then 1 else 0;
    assert !InRing(s.ring, id);
    assert forall i :: 0 <= i < |t.ring| - 1 ==> t.ring[i] == s.ring[i + shift];
    assert t.ring[|t.ring| - 1].id == id;
    if full {
      assert InRing(s.ring, s.ring[0].id);
    }
    forall x: nat
      ensures InRing(t.ring, x) <==> x == id || (InRing(s.ring, x) && !(full && x == s.ring[0].id))
    {
      if InRing(s.ring, x) {
        var i :| 0 <= i < |s.ring| && s.ring[i].id == x;
        if !(full && i == 0) {
          assert t.ring[i - shift].id == x;
        }
      }
      if InRing(t.ring, x) && x != id {
        var i :| 0 <= i < |t.ring| && t.ring[i].id == x;
        assert s.ring[i + shift].id == x;
      }
    }
  }

  /** With any interleaving of publishers no drawn id is lost track of or counted twice. */
  lemma {:induction false} EveryIdAccounted(s: Shared, capacity: nat, steps: seq<PublisherStep>)
    requires Accounted(s, capacity)
    ensures Accounted(SharedAfter(s, capacity, steps), capacity)
    decreases |steps|
  {
    if steps != [] {
      var t := SharedNext(s, capacity, steps[0]);
      if steps[0].Push? && steps[0].id in s.inFlight {
        PushKeepsAccounted(s, capacity, steps[0].id, steps[0].event);
      } else if steps[0].Draw? {
        assert s.nextId !in s.inFlight && !InRing(s.ring, s.nextId) && s.nextId !in s.aged;
      }
      EveryIdAccounted(t, capacity, steps[1..]);
    }
  }

  lemma EveryDrawnIdInOnePlace(capacity: nat, steps: seq<PublisherStep>)
    ensures Accounted(SharedAfter(FRESH, capacity, steps), capacity)
  {
    EveryIdAccounted(FRESH, capacity, steps);
  }

  // --- Exactly when overlapping publishers replay exactly ---

  /**
   What a resuming client needs of the answer to `lastId`: a gap exactly when something newer was
   dropped; otherwise the ids that follow `lastId`, none left out, up to the newest the ring has.
   */
  ghost predicate Exact(s: Shared, lastId: nat) {
    var r := RingReplay(s.ring, lastId);
    && (r.Gap? <==> exists id :: id in s.aged && id > lastId)
    && (r.Caught? ==> forall i :: 0 <= i < |s.ring| ==> s.ring[i].id <= lastId)
    && (r.Events? ==>
          && (forall i :: 0 <= i < |r.entries| ==> r.entries[i].id == lastId + 1 + i)
          && (forall i :: 0 <= i < |s.ring| ==> s.ring[i].id <= lastId + |r.entries|))
  }

  ghost predicate AlwaysExact(s: Shared, capacity: nat, steps: seq<PublisherStep>)
    decreases |steps|
  {
    && (forall lastId: nat :: Exact(s, lastId))
    && (steps != [] ==> AlwaysExact(SharedNext(s, capacity, steps[0]), capacity, steps[1..]))
  }

  /** The step pushes an id while a smaller one has been drawn and not yet pushed. */
  ghost predicate Overtakes(s: Shared, step: PublisherStep) {
    step.Push? && step.id in s.inFlight && exists id :: id in s.inFlight && id < step.id
  }

  ghost predicate SomeOvertakes(s: Shared, capacity: nat, steps: seq<PublisherStep>)
    decreases |steps|
  {
    steps != [] && (Overtakes(s, steps[0]) || SomeOvertakes(SharedNext(s, capacity, steps[0]), capacity, steps[1..]))
  }

  /** The events pushed so far, oldest first, after the ones in `log`. */
  ghost function PushLog(s: Shared, capacity: nat, steps: seq<PublisherStep>, log: seq<Event>): seq<Event>
    decreases |steps|
  {
    if steps == [] then log else
    PushLog(SharedNext(s, capacity, steps[0]), capacity, steps[1..],
            if steps[0].Push? && steps[0].id in s.inFlight then log + [steps[0].event] else log)
  }

  /** Ids up to `oldest` have aged out, those after `last` are in flight. */
  ghost predicate IdsSplit(nextId: nat, inFlight: set<nat>, aged: set<nat>, oldest: nat, last: nat) {
    && last < nextId
    && (forall id: nat :: id in inFlight <==> last < id < nextId)
    && (forall id: nat :: id in aged <==> 1 <= id <= oldest)
  }

  /** The shared bus is where serial publishes of `log` would have left it, with later ids in flight. */
  ghost predicate LikeSerial(s: Shared, capacity: nat, log: seq<Event>) {
    && s.ring == Window(log, capacity)
    && IdsSplit(s.nextId, s.inFlight, s.aged, |log| - Kept(|log|, capacity), |log|)
  }

  lemma WindowIds(log: seq<Event>, capacity: nat)
    ensures |Window(log, capacity)| == Kept(|log|, capacity)
    ensures forall i :: 0 <= i < |Window(log, capacity)| ==>
              Window(log, capacity)[i].id == |log| - Kept(|log|, capacity) + 1 + i
  {
  }

  /** A ring of consecutive ids, with all smaller ones aged out, answers exactly. */
  lemma ConsecutiveIsExact(s: Shared, oldest: nat, lastId: nat)
    requires forall i :: 0 <= i < |s.ring| ==> s.ring[i].id == oldest + 1 + i
    requires (forall id: nat :: id in s.aged <==> 1 <= id <= oldest) && (s.ring == [] ==> oldest == 0)
    ensures Exact(s, lastId)
  {
    NewerOfRun(s.ring, oldest + 1, lastId);
    if lastId < oldest {
      assert oldest in s.aged;
    }
  }

  lemma LikeSerialIsExact(s: Shared, capacity: nat, log: seq<Event>, lastId: nat)
    requires LikeSerial(s, capacity, log)
    ensures Exact(s, lastId)
  {
    WindowIds(log, capacity);
    ConsecutiveIsExact(s, |log| - Kept(|log|, capacity), lastId);
  }

  lemma IdsAfterPush(s: Shared, oldest: nat, last: nat, id: nat, aged: set<nat>)
    requires IdsSplit(s.nextId, s.inFlight, s.aged, oldest, last) && id in s.inFlight && aged == s.aged + {oldest + 1}
    requires forall other :: other in s.inFlight ==> id <= other
    ensures id == last + 1
    ensures IdsSplit(s.nextId, s.inFlight - {id}, s.aged, oldest, last + 1)
    ensures IdsSplit(s.nextId, s.inFlight - {id}, aged, oldest + 1, last + 1)
  {
    assert last + 1 in s.inFlight;
  }

  lemma PushLikeSerial(s: Shared, capacity: nat, log: seq<Event>, id: nat, event: Event)
    requires LikeSerial(s, capacity, log) && id in s.inFlight
    requires forall other :: other in s.inFlight ==> id <= other
    ensures LikeSerial(SharedNext(s, capacity, Push(id, event)), capacity, log + [event])
  {
    var oldest := |log| - Kept(|log|, capacity);
    IdsAfterPush(s, oldest, |log|, id, s.aged + {oldest + 1});
    PushKeepsWindow(log, capacity, event);
    WindowIds(log, capacity);
    assert |log + [event]| == |log| + 1;
    var full := |s.ring| >= capacity && s.ring != [];
    assert full ==> s.ring[0].id == oldest + 1;
    assert |log| + 1 - Kept(|log| + 1, capacity) == oldest + if full then 1 else 0;
  }

  /** A step that does not overtake keeps the bus like a serial one. */
  lemma NextKeepsLikeSerial(s: Shared, capacity: nat, log: seq<Event>, step: PublisherStep)
    requires LikeSerial(s, capacity, log) && !Overtakes(s, step)
    ensures LikeSerial(SharedNext(s, capacity, step), capacity,
                       if step.Push? && step.id in s.inFlight then log + [step.event] else log)
  {
    if step.Push? && step.id in s.inFlight {
      PushLikeSerial(s, capacity, log, step.id, step.event);
    }
  }

  lemma {:induction false} NoneNewer(entries: seq<Entry>, lastId: nat)
    requires forall i :: 0 <= i < |entries| ==> entries[i].id <= lastId
    ensures Newer(entries, lastId) == []
  {
    if entries != [] {
      NoneNewer(entries[..|entries| - 1], lastId);
    }
  }

  /** A ring whose last entry leaves out the id after `last` misleads a client that has everything up to `last`. */
  lemma SkippedIdShows(s: Shared, kept: seq<Entry>, e: Entry, last: nat)
    requires s.ring == kept + [e] && e.id > last + 1
    requires forall i :: 0 <= i < |kept| ==> kept[i].id <= last
    requires forall id :: id in s.aged ==> id <= last
    ensures !Exact(s, last)
  {
    NoneNewer(kept, last);
    assert s.ring[..|s.ring| - 1] == kept;
    assert Newer(s.ring, last) == [e];
    if kept != [] {
      assert s.ring[0] == kept[0];
    }
  }

  /** After an overtaking push the client that has all earlier events gets a false gap or skips an event. */
  lemma OvertakingMisleads(s: Shared, capacity: nat, log: seq<Event>, step: PublisherStep)
    requires LikeSerial(s, capacity, log) && Overtakes(s, step)
    ensures !Exact(SharedNext(s, capacity, step), |log|)
  {
    WindowIds(log, capacity);
    var kept := if |s.ring| >= capacity && s.ring != [] then s.ring[1..] else s.ring;
    SkippedIdShows(SharedNext(s, capacity, step), kept, Entry(step.id, step.event), |log|);
  }

  lemma {:induction false} ExactIffFrom(s: Shared, capacity: nat, steps: seq<PublisherStep>, log: seq<Event>)
    requires LikeSerial(s, capacity, log)
    ensures AlwaysExact(s, capacity, steps) <==> !SomeOvertakes(s, capacity, steps)
    ensures !SomeOvertakes(s, capacity, steps) ==>
              LikeSerial(SharedAfter(s, capacity, steps), capacity, PushLog(s, capacity, steps, log))
    decreases |steps|
  {
    forall lastId: nat
      ensures Exact(s, lastId)
    {
      LikeSerialIsExact(s, capacity, log, lastId);
    }
    if steps != [] {
      var t := SharedNext(s, capacity, steps[0]);
      if Overtakes(s, steps[0]) {
        OvertakingMisleads(s, capacity, log, steps[0]);
        assert !AlwaysExact(t, capacity, steps[1..]);
      } else {
        NextKeepsLikeSerial(s, capacity, log, steps[0]);
        ExactIffFrom(t, capacity, steps[1..], if steps[0].Push? && steps[0].id in s.inFlight
          then log + [steps[0].event] else log);
      }
    }
  }

  /**
   However draws and pushes interleave, every answer of the whole run is exact exactly when no push
   overtakes a smaller id.
   */
  lemma ReplayExactIffNoOvertaking(capacity: nat, steps: seq<PublisherStep>)
    ensures AlwaysExact(FRESH, capacity, steps) <==> !SomeOvertakes(FRESH, capacity, steps)
  {
    assert Window([], capacity) == [];
    ExactIffFrom(FRESH, capacity, steps, []);
  }

  /** Without overtaking the ring answers what the log of the pushed events owes, as for serial publishes. */
  lemma OverlapWithoutOvertakingIsSerial(capacity: nat, steps: seq<PublisherStep>, lastId: nat)
    requires !SomeOvertakes(FRESH, capacity, steps)
    ensures var log := PushLog(FRESH, capacity, steps, []);
            && SharedAfter(FRESH, capacity, steps).ring == Window(log, capacity)
            && RingReplay(SharedAfter(FRESH, capacity, steps).ring, lastId) == Owed(log, capacity, lastId)
  {
    assert Window([], capacity) == [];
    ExactIffFrom(FRESH, capacity, steps, []);
    SerialReplayIsExact(PushLog(FRESH, capacity, steps, []), capacity, lastId);
  }

  /**
   Why the order results need serial publishes: two overlapping publishes of any events reach a ring
   that reports a gap although nothing aged out, and later hides event 1 from a client that has seen 2.
   */
  lemma OverlappingPublishesMislead(capacity: nat, a: Event, b: Event)
    requires capacity >= 2
    ensures var drawn := SharedNext(SharedNext(FRESH, capacity, Draw), capacity, Draw);
            var s1 := SharedNext(drawn, capacity, Push(2, b));
            var s2 := SharedNext(s1, capacity, Push(1, a));
            && s1.aged == {} && RingReplay(s1.ring, 0) == Gap
            && s2.ring == [Entry(2, b), Entry(1, a)] && RingReplay(s2.ring, 2) == Caught
  {
    var ring := [Entry(2, b), Entry(1, a)];
    assert ring[..1] == [Entry(2, b)] && ring[..1][..0] == [];
    assert Newer(ring[..1], 2) == [];
  }
}
