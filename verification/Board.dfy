/**
 Scheduling an issue on the board.

 A request is checked, reads the issue's row, merges the row with its patch, and
 later writes both dates and a `scheduled` event in one batch.  Other requests
 may read and write between those two database calls, so a request is a `Read`
 step followed by a `Commit` step.  A step that cannot occur leaves the board
 unchanged, so every step sequence is a run.
 */
module Board {
  import opened Common

  /** A key of the request body. */
  datatype Field = Missing | Null | Text(text: string) | NotText

  datatype Patch = Patch(start: Field, due: Field)

  datatype Dates = Dates(start: Option<string>, due: Option<string>)

  datatype Refusal = NoField | BadStart | BadDue | NotFound | StartAfterDue

  // --- Dates as strings ---

  predicate IsDigit(c: char) {
    '0' <= c <= '9'
  }

  lemma DigitIff(c: char)
    ensures IsDigit(c) <==> c in "0123456789"
  {
    if IsDigit(c) {
      assert "0123456789"[c as int - '0' as int] == c;
    }
  }

  predicate IsValidDate(s: string) {
    && |s| == 10 && s[4] == '-' && s[7] == '-'
    && forall i :: 0 <= i < 10 && i != 4 && i != 7 ==> IsDigit(s[i])
  }

  /** The string comparison `a < b` of the language: by the first differing character. */
  predicate StringLess(a: string, b: string) {
    if b == "" then false
    else if a == "" then true
    else if a[0] == b[0] then StringLess(a[1..], b[1..])
    else a[0] < b[0]
  }

  predicate AllDigits(s: string) {
    forall i :: 0 <= i < |s| ==> IsDigit(s[i])
  }

  function Number(s: string): nat
    requires AllDigits(s)
  {
    if s == "" then 0 else
    var last := s[|s| - 1];
    assert IsDigit(last);
    Number(s[..|s| - 1]) * 10 + (last as int - '0' as int)
  }

  datatype Day = Day(year: nat, month: nat, day: nat)

  function DayOf(s: string): Day
    requires IsValidDate(s)
  {
    Day(Number(s[..4]), Number(s[5..7]), Number(s[8..]))
  }

  predicate Earlier(a: Day, b: Day) {
    a.year < b.year || (a.year == b.year && (a.month < b.month || (a.month == b.month && a.day < b.day)))
  }

  /** For digit strings of one length, string order is numeric order. */
  lemma {:induction false} DigitOrder(a: string, b: string)
    requires AllDigits(a) && AllDigits(b) && |a| == |b|
    ensures StringLess(a, b) <==> Number(a) < Number(b)
    ensures Number(a) == Number(b) ==> a == b
  {
    if a != "" {
      var n := |a| - 1;
      DigitOrder(a[..n], b[..n]);
      assert a == a[..n] + [a[n]] && b == b[..n] + [b[n]];
      LessAppend(a[..n], b[..n], [a[n]], [b[n]]);
    }
  }

  /** String order of equally long heads decides, unless the heads are equal. */
  lemma {:induction false} LessAppend(a: string, b: string, x: string, y: string)
    requires |a| == |b|
    ensures StringLess(a + x, b + y) <==> StringLess(a, b) || (a == b && StringLess(x, y))
  {
    if a == "" {
      assert a + x == x && b + y == y;
    } else {
      assert (a + x)[1..] == a[1..] + x && (b + y)[1..] == b[1..] + y;
      if a[0] == b[0] {
        LessAppend(a[1..], b[1..], x, y);
        assert a == [a[0]] + a[1..] && b == [b[0]] + b[1..];
      }
    }
  }

  /** On accepted dates the string comparison is the calendar order. */
  lemma StringOrderIsCalendarOrder(a: string, b: string)
    requires IsValidDate(a) && IsValidDate(b)
    ensures StringLess(a, b) <==> Earlier(DayOf(a), DayOf(b))
    ensures DayOf(a) == DayOf(b) ==> a == b
  {
    DigitOrder(a[..4], b[..4]);
    DigitOrder(a[5..7], b[5..7]);
    DigitOrder(a[8..], b[8..]);
    assert a == a[..4] + ("-" + (a[5..7] + ("-" + a[8..])));
    assert b == b[..4] + ("-" + (b[5..7] + ("-" + b[8..])));
    LessAppend(a[..4], b[..4], "-" + (a[5..7] + ("-" + a[8..])), "-" + (b[5..7] + ("-" + b[8..])));
    LessAppend("-", "-", a[5..7] + ("-" + a[8..]), b[5..7] + ("-" + b[8..]));
    LessAppend(a[5..7], b[5..7], "-" + a[8..], "-" + b[8..]);
    LessAppend("-", "-", a[8..], b[8..]);
  }

  // --- One request ---

  predicate Acceptable(f: Field) {
    f.Missing? || f.Null? || (f.Text? && IsValidDate(f.text))
  }

  function Check(p: Patch): Option<Refusal> {
    if p.start.Missing? && p.due.Missing? then Some(NoField)
    else if !Acceptable(p.start) then Some(BadStart)
    else if !Acceptable(p.due) then Some(BadDue)
    else None
  }

  /** An unspecified key keeps the value that was read. */
  function MergeField(f: Field, seen: Option<string>): Option<string> {
    match f
    case Missing => seen
    case Text(s) => Some(s)
    case _ => None
  }

  function Merge(p: Patch, seen: Dates): Dates {
    Dates(MergeField(p.start, seen.start), MergeField(p.due, seen.due))
  }

  /** `start && due && start > due`; an empty string is as good as none. */
  predicate OutOfOrder(d: Dates) {
    && d.start.Some? && d.start.value != ""
    && d.due.Some? && d.due.value != ""
    && StringLess(d.due.value, d.start.value)
  }

  /** What a request writes when it read `seen`, or why it writes nothing. */
  function Plan(p: Patch, seen: Dates): Result<Dates, Refusal> {
    match Check(p)
    case Some(e) => Err(e)
    case None => if OutOfOrder(Merge(p, seen)) then Err(StartAfterDue) else Ok(Merge(p, seen))
  }

  predicate ValidField(d: Option<string>) {
    d.Some? ==> IsValidDate(d.value)
  }

  /** Stored dates are well-formed, and in calendar order when both are set. */
  predicate Sound(d: Dates) {
    && ValidField(d.start) && ValidField(d.due)
    && (d.start.Some? && d.due.Some? ==> !Earlier(DayOf(d.due.value), DayOf(d.start.value)))
  }

  /** A key that is not sent keeps the date, null clears it, a text is the new date. */
  predicate Becomes(f: Field, before: Option<string>, after: Option<string>) {
    && (f.Missing? ==> after == before)
    && (f.Null? ==> after == None)
    && (f.Text? ==> after == Some(f.text))
  }

  /** Which fields are refused, and for what: the first bad one names the reason. */
  lemma CheckIff(p: Patch)
    ensures var badStart := p.start.NotText? || (p.start.Text? && !IsValidDate(p.start.text));
            var badDue := p.due.NotText? || (p.due.Text? && !IsValidDate(p.due.text));
            && (Check(p) == Some(NoField) <==> p.start.Missing? && p.due.Missing?)
            && (Check(p) == Some(BadStart) <==> badStart)
            && (Check(p) == Some(BadDue) <==> !badStart && badDue)
            && (Check(p).None? <==> !(p.start.Missing? && p.due.Missing?) && !badStart && !badDue)
  {
  }

  /** Good fields take effect exactly unless the dates they lead to are both set and out of calendar order. */
  lemma PlanIff(p: Patch, seen: Dates, d: Dates)
    requires Sound(seen) && Check(p).None?
    requires Becomes(p.start, seen.start, d.start) && Becomes(p.due, seen.due, d.due)
    ensures ValidField(d.start) && ValidField(d.due)
    ensures Plan(p, seen) ==
            if d.start.Some? && d.due.Some? && Earlier(DayOf(d.due.value), DayOf(d.start.value))
            then Err(StartAfterDue) else Ok(d)
  {
    if d.start.Some? && d.due.Some? {
      StringOrderIsCalendarOrder(d.due.value, d.start.value);
    }
  }

  // --- The database ---

  datatype Scheduled = Scheduled(issue: string, dates: Dates)

  datatype Flight = Flight(issue: string, patch: Patch, seen: Dates)

  datatype State = State(issues: map<string, Dates>, events: seq<Scheduled>, flights: map<nat, Flight>)

  datatype Step =
    | Create(issue: string)
    | Read(request: nat, issue: string, patch: Patch)
    | Commit(request: nat)

  const UNSCHEDULED := Dates(None, None)

  const INIT := State(map[], [], map[])

  function DoRead(s: State, request: nat, issue: string, patch: Patch): State {
    if request in s.flights || Check(patch).Some? || issue !in s.issues then s
    else s.(flights := s.flights[request := Flight(issue, patch, s.issues[issue])])
  }

  /** The batch: both columns and one event, or nothing when the merged dates are out of order. */
  function Write(s: State, issue: string, plan: Result<Dates, Refusal>): State {
    match plan
    case Err(_) => s
    case Ok(d) => s.(issues := s.issues[issue := d], events := s.events + [Scheduled(issue, d)])
  }

  function DoCommit(s: State, request: nat): State {
    if request !in s.flights then s
    else
      var f := s.flights[request];
      Write(s.(flights := s.flights - {request}), f.issue, Plan(f.patch, f.seen))
  }

  function Next(s: State, step: Step): State {
    match step
    case Create(issue) => if issue in s.issues then s else s.(issues := s.issues[issue := UNSCHEDULED])
    case Read(request, issue, patch) => DoRead(s, request, issue, patch)
    case Commit(request) => DoCommit(s, request)
  }

  function Run(s: State, steps: seq<Step>): State {
    if steps == [] then s else Next(Run(s, steps[..|steps| - 1]), steps[|steps| - 1])
  }

  // --- Every interleaving ---

  function LastScheduled(events: seq<Scheduled>, issue: string): Dates {
    if events == [] then UNSCHEDULED
    else if events[|events| - 1].issue == issue then events[|events| - 1].dates
    else LastScheduled(events[..|events| - 1], issue)
  }

  ghost predicate Inv(s: State) {
    && (forall i :: i in s.issues ==> Sound(s.issues[i]) && s.issues[i] == LastScheduled(s.events, i))
    && (forall i :: i !in s.issues ==> LastScheduled(s.events, i) == UNSCHEDULED)
    && (forall k :: 0 <= k < |s.events| ==> Sound(s.events[k].dates) && s.events[k].issue in s.issues)
    && (forall r :: r in s.flights ==>
          && s.flights[r].issue in s.issues && Sound(s.flights[r].seen) && Check(s.flights[r].patch).None?)
  }

  /** Merging accepted fields into sound dates gives sound dates, unless it is refused. */
  lemma PlanSound(p: Patch, seen: Dates)
    requires Sound(seen)
    ensures Plan(p, seen).Ok? ==> Sound(Plan(p, seen).value)
  {
    var d := Merge(p, seen);
    if Plan(p, seen).Ok? && d.start.Some? && d.due.Some? {
      StringOrderIsCalendarOrder(d.due.value, d.start.value);
    }
  }

  lemma LastScheduledAppend(events: seq<Scheduled>, e: Scheduled, issue: string)
    ensures LastScheduled(events + [e], issue) == if e.issue == issue then e.dates else LastScheduled(events, issue)
  {
    assert (events + [e])[..|events|] == events;
  }

  lemma CommitKeepsInv(s: State, request: nat)
    requires Inv(s)
    ensures Inv(DoCommit(s, request))
  {
    if request in s.flights {
      var f := s.flights[request];
      PlanSound(f.patch, f.seen);
      var plan := Plan(f.patch, f.seen);
      if plan.Ok? {
        forall i ensures LastScheduled(s.events + [Scheduled(f.issue, plan.value)], i) ==
                         if f.issue == i then plan.value else LastScheduled(s.events, i)
        {
          LastScheduledAppend(s.events, Scheduled(f.issue, plan.value), i);
        }
      }
    }
  }

  lemma {:induction false} RunKeepsInv(steps: seq<Step>)
    ensures Inv(Run(INIT, steps))
  {
    if steps != [] {
      var n := |steps| - 1;
      RunKeepsInv(steps[..n]);
      if steps[n].Commit? {
        CommitKeepsInv(Run(INIT, steps[..n]), steps[n].request);
      }
    }
  }

  /** In every interleaving an issue with both dates starts no later than it is due. */
  lemma NeverDueBeforeStart(steps: seq<Step>, issue: string)
    requires issue in Run(INIT, steps).issues
    ensures var d := Run(INIT, steps).issues[issue];
            && ValidField(d.start) && ValidField(d.due)
            && (d.start.Some? && d.due.Some? ==> !Earlier(DayOf(d.due.value), DayOf(d.start.value)))
  {
    RunKeepsInv(steps);
  }

  /** In every interleaving an issue's dates are those of its last `scheduled` event, or unset when it has none. */
  lemma DatesAreLastEvent(steps: seq<Step>, issue: string)
    requires issue in Run(INIT, steps).issues
    ensures var s := Run(INIT, steps);
            s.issues[issue] == LastScheduled(s.events, issue)
  {
    RunKeepsInv(steps);
  }

  // --- What a concurrent write can undo ---

  predicate SameWhereUnspecified(p: Patch, a: Dates, b: Dates) {
    (p.start.Missing? ==> a.start == b.start) && (p.due.Missing? ==> a.due == b.due)
  }

  /** The row after a request that planned with `seen` meets the row `now`. */
  function RowAfter(p: Patch, seen: Dates, now: Dates): Dates {
    match Plan(p, seen) case Ok(d) => d case Err(_) => now
  }

  /**
   A request that writes does what it would have done reading and writing at once
   exactly when the fields it left out are still as it read them.
   */
  lemma CommitIsAtomicIff(p: Patch, seen: Dates, now: Dates)
    requires Sound(now) && Plan(p, seen).Ok?
    ensures RowAfter(p, seen, now) == RowAfter(p, now, now) <==> SameWhereUnspecified(p, seen, now)
  {
    if now.start.Some? && now.due.Some? {
      StringOrderIsCalendarOrder(now.due.value, now.start.value);
    }
    assert !OutOfOrder(now);
    if Merge(p, seen) == now {
      assert Merge(p, now) == now;
    }
  }

  /** A step sequence with no write to the issue. */
  predicate NoCommitTo(s: State, steps: seq<Step>, issue: string) {
    steps == [] ||
    var n := |steps| - 1;
    var before := Run(s, steps[..n]);
    && NoCommitTo(s, steps[..n], issue)
    && (steps[n].Commit? && steps[n].request in before.flights ==> before.flights[steps[n].request].issue != issue)
  }

  lemma {:induction false} UntouchedRow(s: State, steps: seq<Step>, issue: string)
    requires issue in s.issues && NoCommitTo(s, steps, issue)
    ensures issue in Run(s, steps).issues && Run(s, steps).issues[issue] == s.issues[issue]
  {
    if steps != [] {
      UntouchedRow(s, steps[..|steps| - 1], issue);
    }
  }

  lemma {:induction false} FlightWaits(s: State, steps: seq<Step>, request: nat)
    requires request in s.flights && Commit(request) !in steps
    ensures request in Run(s, steps).flights && Run(s, steps).flights[request] == s.flights[request]
  {
    if steps != [] {
      var n := |steps| - 1;
      assert steps[n] != Commit(request) && steps == steps[..n] + [steps[n]];
      FlightWaits(s, steps[..n], request);
    }
  }

  /** A request during which nobody else writes the issue takes effect as one atomic step at its commit. */
  lemma UndisturbedIsAtomic(s: State, request: nat, issue: string, patch: Patch, between: seq<Step>)
    requires request !in s.flights && issue in s.issues && Check(patch).None?
    requires NoCommitTo(DoRead(s, request, issue, patch), between, issue) && Commit(request) !in between
    ensures var before := Run(DoRead(s, request, issue, patch), between);
            && issue in before.issues
            && DoCommit(before, request) ==
               Write(before.(flights := before.flights - {request}), issue, Plan(patch, before.issues[issue]))
  {
    var read := DoRead(s, request, issue, patch);
    UntouchedRow(read, between, issue);
    FlightWaits(read, between, request);
  }

  /**
   Two accepted requests for different fields, overlapping: the one that commits
   last puts back the field it did not mention, so the other's date is lost though
   its request was answered with success.
   */
  lemma OverlapLosesADate(issue: string, start: string, due: string)
    requires IsValidDate(start) && IsValidDate(due)
    ensures var steps := [Create(issue),
                          Read(0, issue, Patch(Text(start), Missing)), Read(1, issue, Patch(Missing, Text(due))),
                          Commit(0), Commit(1)];
            var s := Run(INIT, steps);
            && s.events == [Scheduled(issue, Dates(Some(start), None)), Scheduled(issue, Dates(None, Some(due)))]
            && s.issues == map[issue := Dates(None, Some(due))]
  {
    var p, q := Patch(Text(start), Missing), Patch(Missing, Text(due));
    var s1 := Next(INIT, Create(issue));
    var s2 := Next(s1, Read(0, issue, p));
    var s3 := Next(s2, Read(1, issue, q));
    var s4 := Next(s3, Commit(0));
    var s5 := Next(s4, Commit(1));
    var steps := [Create(issue), Read(0, issue, p), Read(1, issue, q), Commit(0), Commit(1)];
    assert steps[..4] == [Create(issue), Read(0, issue, p), Read(1, issue, q), Commit(0)];
    assert steps[..4][..3] == [Create(issue), Read(0, issue, p), Read(1, issue, q)];
    assert steps[..4][..3][..2] == [Create(issue), Read(0, issue, p)];
    assert steps[..4][..3][..2][..1] == [Create(issue)];
    assert Run(INIT, [Create(issue)][..0]) == INIT;
    assert Run(INIT, [Create(issue)]) == s1;
    assert Run(INIT, steps[..4][..3][..2]) == s2;
    assert Run(INIT, steps[..4][..3]) == s3;
    assert Run(INIT, steps[..4]) == s4;
    assert Run(INIT, steps) == s5;
  }

  // --- The handler ---

  /** The two tables the handler uses. */
  class Database {
    var issues: map<string, Dates>
    var events: seq<Scheduled>

    ghost predicate Valid()
      reads this
    {
      Inv(State(issues, events, map[]))
    }

    constructor ()
      ensures Valid() && issues == map[] && events == []
    {
      issues, events := map[], [];
    }

    method CreateIssue(issue: string)
      requires Valid()
      modifies this
      ensures Valid()
      ensures State(issues, events, map[]) == Next(old(State(issues, events, map[])), Create(issue))
    {
      if issue !in issues {
        issues := issues[issue := UNSCHEDULED];
      }
    }

    /** A request nobody overlaps: read and batch write in one piece. */
    method ScheduleIssue(issue: string, patch: Patch) returns (r: Result<Dates, Refusal>)
      requires Valid()
      modifies this
      ensures Valid()
      ensures r == if Check(patch).Some? then Err(Check(patch).value)
                   else if issue !in old(issues) then Err(NotFound)
                   else Plan(patch, old(issues)[issue])
      ensures r.Err? ==> issues == old(issues) && events == old(events)
      ensures r.Ok? ==> issues == old(issues)[issue := r.value] && events == old(events) + [Scheduled(issue, r.value)]
      ensures r.Ok? ==> Sound(r.value) && issue in old(issues)
      ensures r.Ok? ==> Becomes(patch.start, old(issues)[issue].start, r.value.start)
      ensures r.Ok? ==> Becomes(patch.due, old(issues)[issue].due, r.value.due)
    {
      var hasStart, hasDue := !patch.start.Missing?, !patch.due.Missing?;
      if !hasStart && !hasDue { return Err(NoField); }
      if hasStart && !patch.start.Null? && !(patch.start.Text? && IsValidDate(patch.start.text)) {
        return Err(BadStart);
      }
      if hasDue && !patch.due.Null? && !(patch.due.Text? && IsValidDate(patch.due.text)) {
        return Err(BadDue);
      }
      if issue !in issues { return Err(NotFound); }
      var existing := issues[issue];
      var nextStart := if hasStart then (if patch.start.Text? then Some(patch.start.text) else None)
                       else existing.start;
      var nextDue := if hasDue then (if patch.due.Text? then Some(patch.due.text) else None) else existing.due;
      var next := Dates(nextStart, nextDue);
      if OutOfOrder(next) { return Err(StartAfterDue); }
      ghost var s := State(issues, events, map[0 := Flight(issue, patch, existing)]);
      CommitKeepsInv(s, 0);
      PlanSound(patch, existing);
      assert s.flights - {0} == map[];
      issues, events := issues[issue := next], events + [Scheduled(issue, next)];
      r := Ok(next);
    }
  }
}
