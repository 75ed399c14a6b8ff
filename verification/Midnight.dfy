/**
 * How far the ceilings can be exceeded across midnight: by one for every create that
 * waits. Creates that start before midnight count with the windows of the old day, and
 * so miss what is consumed after midnight while they wait.
 */
module Midnight {
  import opened Prelude
  import opened Submissions
  import opened Interleaving
  import Billing
  import Calendar
  import Ledger

  const PRO: string := "pro"

  /**
   * A night: `m` is its midnight, `full` uploads are prepared before it, and `waiting`
   * creates wait. All are of one user, or each is of its own. `turn` says that the
   * midnight is known to end a month, too.
   */
  datatype Plan = Plan(m: int, full: nat, waiting: nat, shared: bool, turn: bool)

  function Total(p: Plan): nat { p.full + p.waiting }

  function Owner(p: Plan, i: int): int { if p.shared then 0 else i }

  function Upload(p: Plan, i: int): Ledger.Request {
    Ledger.Request(i, Owner(p, i), PRO, 10, p.m + DAY)
  }

  function CompleteUpload(p: Plan, i: int): Event { Other(Ledger.DoComplete(i, Owner(p, i), 10, p.m + DAY)) }

  function Entry(p: Plan, i: int): Ledger.Entry { Ledger.Entry(i, i, Owner(p, i), i) }

  function SubmitUpload(p: Plan, i: int): Event { Other(Ledger.DoSubmit(Entry(p, i))) }

  /** The limits leave room for `full` uploads before midnight, and the month for all of them unless it ends. */
  predicate Fits(p: Plan, limits: Ledger.Limits) {
    && limits.daily >= 1 && limits.monthly >= 1 && 1 <= p.full <= limits.globalDaily
    && (p.shared ==> p.full <= limits.daily && (if p.turn then p.full else Total(p)) <= limits.monthly)
  }

  /** Windows that do not reach past the midnight. */
  predicate EndsAt(w: Calendar.Windows, p: Plan) {
    w.dayEnd <= p.m && (p.turn ==> w.monthEnd <= p.m)
  }

  // ----- the rows in the course of the night -----

  /** Upload `i` can be created on either side of midnight, and submitted after it. */
  predicate Able(db: Ledger.Db, p: Plan, i: int) {
    && Ledger.Gate(db, Upload(p, i), p.m - 1).None? && Ledger.Entitled(db.billing, (Owner(p, i), PRO), p.m)
    && i in db.challenges && Ledger.Open(db.challenges[i], p.m)
  }

  /** Upload `i` is completed, and submitted if it is one of the first `used`. */
  ghost predicate Row(db: Ledger.Db, p: Plan, i: int, used: int) {
    && i in db.uploads && i in db.reservations
    && db.uploads[i].user == Owner(p, i) && db.reservations[i].user == Owner(p, i)
    && db.reservations[i].expiresAt == p.m + DAY && db.reservations[i].entitlement == PRO
    && (if i <= used then db.reservations[i].status == Ledger.Consumed(p.m, i)
        else db.uploads[i].status == Ledger.Uploaded && db.reservations[i].status.Reserved?)
  }

  /** `made` uploads are completed, and the first `used` of them submitted. */
  ghost predicate Rows(db: Ledger.Db, p: Plan, made: int, used: int) {
    && (forall i :: 1 <= i <= Total(p) ==> Able(db, p, i))
    && (forall i :: 1 <= i <= made ==> Row(db, p, i, used))
    && (forall i :: i in db.uploads <==> 1 <= i <= made)
    && (forall i :: i in db.reservations <==> 1 <= i <= made)
    && (forall s :: s in db.submissions <==> 1 <= s <= used)
    && (forall s :: s in db.submissions ==> db.submissions[s].challenge == s && db.submissions[s].media == s)
  }

  /** Creates that have started just before midnight and wait. */
  ghost predicate Waits(s: State, p: Plan, first: int, last: int) {
    && s.holder.None? && (forall i :: i in s.flights <==> first <= i <= last)
    && (forall i :: first <= i <= last ==> WaitsAt(s, p, i))
  }

  predicate WaitsAt(s: State, p: Plan, i: int) {
    && i in s.flights && s.flights[i].request == Upload(p, i) && s.flights[i].at == p.m - 1
    && EndsAt(s.flights[i].windows, p) && s.flights[i].stage.Started?
  }

  lemma WaitsKept(s: State, s': State, p: Plan, first: int, last: int)
    requires Waits(s, p, first, last) && s'.flights == s.flights && s'.holder == s.holder
    ensures Waits(s', p, first, last)
  {
    forall i | first <= i <= last ensures WaitsAt(s', p, i) { assert WaitsAt(s, p, i); }
  }

  predicate NoTicks(events: seq<Event>) {
    forall i :: 0 <= i < |events| ==> !(events[i].Other? && events[i].step.Tick?)
  }

  predicate NoFinish(events: seq<Event>) {
    forall i :: 0 <= i < |events| ==> !events[i].Finish?
  }

  lemma RunLast(s: State, e: Event, limits: Ledger.Limits)
    ensures Run(s, [e], limits) == Next(s, e, limits)
  {
    assert [e][..0] == [];
  }

  // ----- before midnight -----

  /** Rows before midnight leave room for one more under every ceiling that covers its user. */
  lemma RoomBefore(db: Ledger.Db, p: Plan, limits: Ledger.Limits, made: int, scope: Ledger.Scope)
    requires Rows(db, p, made, 0) && Fits(p, limits) && 0 <= made < p.full
    requires Ledger.Covers(scope, Owner(p, made + 1))
    ensures Ledger.HasRoom(db, scope, limits)
  {
    var load := Ledger.Load(db.reservations, scope, db.now);
    IntervalSize(1, made);
    assert load <= Interval(1, made);
    SubsetSize(load, Interval(1, made));
    if !p.shared && !scope.GlobalDay? {
      forall i ensures i !in load {
        assert i in db.reservations ==> Row(db, p, i, 0);
      }
    }
  }

  lemma CreatedBefore(db: Ledger.Db, p: Plan, limits: Ledger.Limits, made: int)
    requires Rows(db, p, made, 0) && db.now == p.m - 1 && Fits(p, limits) && 0 <= made < p.full
    ensures Ledger.Create(db, Upload(p, made + 1), limits).0 == Created(db, p, made + 1)
  {
    assert Able(db, p, made + 1);
    forall scope | Ledger.Covers(scope, Owner(p, made + 1))
      ensures Ledger.HasRoom(db, scope, limits)
    {
      RoomBefore(db, p, limits, made, scope);
    }
    Ledger.FullMeansFull(db, Owner(p, made + 1), limits);
    InsertCreates(db, p, made, 0);
    CreateSucceeds(db, Upload(p, made + 1), limits);
  }

  lemma CreateSucceeds(db: Ledger.Db, q: Ledger.Request, limits: Ledger.Limits)
    requires Ledger.Gate(db, q, db.now).None? && Ledger.Full(db, q.user, limits).None?
    ensures Ledger.Create(db, q, limits) == Ledger.Insert(db, q)
  {
  }

  /** The rows of upload `i` as the create inserts them. */
  function Created(db: Ledger.Db, p: Plan, i: int): Ledger.Db {
    db.(uploads := db.uploads[i := Ledger.Upload(Owner(p, i), 10, Ledger.Pending, p.m + DAY)],
        reservations :=
          db.reservations[i := Ledger.Reservation(Owner(p, i), PRO, Ledger.Reserved, p.m + DAY, db.now)])
  }

  lemma InsertCreates(db: Ledger.Db, p: Plan, made: int, used: int)
    requires Rows(db, p, made, used) && 0 <= made
    ensures Ledger.Insert(db, Upload(p, made + 1)).0 == Created(db, p, made + 1)
  {
  }

  /** The rows when the upload that was just created is completed as well. */
  function Completed(db: Ledger.Db, p: Plan, i: int): Ledger.Db {
    Ledger.Complete(Created(db, p, i), i, Owner(p, i), 10, p.m + DAY).0
  }

  lemma CompletedRows(db: Ledger.Db, p: Plan, made: int, used: int)
    requires Rows(db, p, made, used) && 0 <= used <= made && db.now < p.m + DAY
    ensures Rows(Completed(db, p, made + 1), p, made + 1, used) && Completed(db, p, made + 1).now == db.now
  {
    var i, db' := made + 1, Completed(db, p, made + 1);
    assert db' == db.(
      uploads := db.uploads[i := Ledger.Upload(Owner(p, i), 10, Ledger.Uploaded, p.m + DAY)],
      reservations := db.reservations[i := Ledger.Reservation(Owner(p, i), PRO, Ledger.Reserved, p.m + DAY, db.now)]);
    forall j | 1 <= j <= made + 1
      ensures Row(db', p, j, used)
    {
      assert j <= made ==> Row(db, p, j, used);
    }
    forall j | 1 <= j <= Total(p) ensures Able(db', p, j) { assert Able(db, p, j); }
  }

  /** A create from start to completion. */
  lemma RunCreate(s: State, p: Plan, i: int, limits: Ledger.Limits) returns (events: seq<Event>)
    requires s.flights == map[] && s.holder.None?
    requires Ledger.Create(s.db, Upload(p, i), limits).0 == Created(s.db, p, i)
    ensures NoTicks(events) && Run(s, events, limits) == s.(db := Completed(s.db, p, i))
  {
    var create := [Start(i, Upload(p, i))] + Statements(i);
    AtomicIsUninterrupted(s, i, Upload(p, i), limits);
    events := create + [CompleteUpload(p, i)];
    RunAppend(s, create, [CompleteUpload(p, i)], limits);
    RunLast(s.(db := Created(s.db, p, i)), CompleteUpload(p, i), limits);
  }

  ghost predicate AtRest(s: State, p: Plan, made: int) {
    s.flights == map[] && s.holder.None? && s.db.now == p.m - 1 && Rows(s.db, p, made, 0)
  }

  lemma PrepareOne(s: State, p: Plan, limits: Ledger.Limits, made: int) returns (events: seq<Event>)
    requires AtRest(s, p, made) && Fits(p, limits) && 0 <= made < p.full
    ensures NoTicks(events) && AtRest(Run(s, events, limits), p, made + 1)
  {
    CreatedBefore(s.db, p, limits, made);
    CompletedRows(s.db, p, made, 0);
    events := RunCreate(s, p, made + 1, limits);
  }

  lemma {:induction false} Prepared(s: State, p: Plan, limits: Ledger.Limits, made: nat) returns (events: seq<Event>)
    requires AtRest(s, p, 0) && Fits(p, limits) && made <= p.full
    ensures NoTicks(events) && AtRest(Run(s, events, limits), p, made)
  {
    if made == 0 {
      events := [];
    } else {
      var front := Prepared(s, p, limits, made - 1);
      var last := PrepareOne(Run(s, front, limits), p, limits, made - 1);
      events := front + last;
      RunAppend(s, front, last, limits);
    }
  }

  /** A further create starts and waits. */
  lemma StartedOne(s: State, p: Plan, limits: Ledger.Limits, first: int, i: int)
    requires Waits(s, p, first, i - 1) && first <= i && s.db.now == p.m - 1
    requires EndsAt(Calendar.UsageWindows(p.m - 1), p)
    ensures var s' := Run(s, [Start(i, Upload(p, i))], limits); Waits(s', p, first, i) && s'.db == s.db
  {
    RunLast(s, Start(i, Upload(p, i)), limits);
    var flight := NewFlight(Upload(p, i), p.m - 1);
    WaitsWith(s, p, first, i, flight);
  }

  lemma WaitsWith(s: State, p: Plan, first: int, i: int, flight: Flight)
    requires Waits(s, p, first, i - 1) && first <= i && flight.request == Upload(p, i) && flight.at == p.m - 1
    requires EndsAt(flight.windows, p) && flight.stage.Started?
    ensures Waits(s.(flights := s.flights[i := flight]), p, first, i) && i !in s.flights
  {
    var s' := s.(flights := s.flights[i := flight]);
    forall j | first <= j <= i
      ensures WaitsAt(s', p, j)
    {
      assert j < i ==> WaitsAt(s, p, j);
    }
  }

  lemma {:induction false} Queued(s: State, p: Plan, limits: Ledger.Limits, waiting: nat) returns (events: seq<Event>)
    requires s.flights == map[] && s.holder.None? && s.db.now == p.m - 1
    requires EndsAt(Calendar.UsageWindows(p.m - 1), p)
    ensures NoTicks(events)
    ensures var s' := Run(s, events, limits); s'.db == s.db && Waits(s', p, p.full + 1, p.full + waiting)
  {
    if waiting == 0 {
      events := NoneQueued(s, p, limits);
    } else {
      var front := Queued(s, p, limits, waiting - 1);
      events := QueuedOne(s, front, p, limits, p.full + waiting);
    }
  }

  lemma NoneQueued(s: State, p: Plan, limits: Ledger.Limits) returns (events: seq<Event>)
    requires s.flights == map[] && s.holder.None?
    ensures NoTicks(events) && Run(s, events, limits) == s && Waits(s, p, p.full + 1, p.full)
  {
    events := [];
  }

  lemma QueuedOne(s: State, front: seq<Event>, p: Plan, limits: Ledger.Limits, i: int) returns (events: seq<Event>)
    requires NoTicks(front) && Waits(Run(s, front, limits), p, p.full + 1, i - 1) && p.full + 1 <= i
    requires Run(s, front, limits).db.now == p.m - 1 && EndsAt(Calendar.UsageWindows(p.m - 1), p)
    ensures NoTicks(events)
    ensures var s' := Run(s, events, limits);
            Waits(s', p, p.full + 1, i) && s'.db == Run(s, front, limits).db
  {
    var start := [Start(i, Upload(p, i))];
    events := front + start;
    RunAppend(s, front, start, limits);
    StartedOne(Run(s, front, limits), p, limits, p.full + 1, i);
  }

  // ----- after midnight -----

  lemma NextSubmittable(db: Ledger.Db, p: Plan, made: int, used: int)
    requires Rows(db, p, made, used) && db.now == p.m && 0 <= used < made <= Total(p)
    ensures Ledger.SubmitError(db, Entry(p, used + 1)).None?
  {
    assert Able(db, p, used + 1) && Row(db, p, used + 1, used);
  }

  /** Submitting the next of the prepared uploads. */
  lemma SubmittedNext(db: Ledger.Db, p: Plan, made: int, used: int)
    requires Rows(db, p, made, used) && db.now == p.m && 0 <= used < made <= Total(p)
    ensures var db' := Ledger.Submit(db, Entry(p, used + 1)).0; Rows(db', p, made, used + 1) && db'.now == p.m
  {
    NextSubmittable(db, p, made, used);
    var db', next := Ledger.Submit(db, Entry(p, used + 1)).0, used + 1;
    forall i | 1 <= i <= made
      ensures Row(db', p, i, next)
    {
      assert Row(db, p, i, used);
    }
    forall i | 1 <= i <= Total(p) ensures Able(db', p, i) { assert Able(db, p, i); }
  }

  lemma SubmitOne(s: State, p: Plan, limits: Ledger.Limits, used: int)
    requires Rows(s.db, p, p.full, used) && s.db.now == p.m && 0 <= used < p.full
    ensures var s' := Run(s, [SubmitUpload(p, used + 1)], limits);
            s' == s.(db := s'.db) && Rows(s'.db, p, p.full, used + 1) && s'.db.now == p.m
  {
    RunLast(s, SubmitUpload(p, used + 1), limits);
    SubmittedNext(s.db, p, p.full, used);
  }

  lemma {:induction false} SubmittedAll(s: State, p: Plan, limits: Ledger.Limits, used: nat)
    returns (events: seq<Event>)
    requires Rows(s.db, p, p.full, 0) && s.db.now == p.m && used <= p.full
    ensures NoFinish(events)
    ensures var s' := Run(s, events, limits);
            s' == s.(db := s'.db) && Rows(s'.db, p, p.full, used) && s'.db.now == p.m
  {
    if used == 0 {
      events := NothingYet(s, limits);
    } else {
      var front := SubmittedAll(s, p, limits, used - 1);
      events := SubmittedMore(s, front, p, limits, used - 1);
    }
  }

  lemma NothingYet(s: State, limits: Ledger.Limits) returns (events: seq<Event>)
    ensures events == [] && Run(s, events, limits) == s
  {
    events := [];
  }

  lemma SubmittedMore(s: State, front: seq<Event>, p: Plan, limits: Ledger.Limits, used: int)
    returns (events: seq<Event>)
    requires NoFinish(front) && 0 <= used < p.full
    requires var mid := Run(s, front, limits);
             mid == s.(db := mid.db) && Rows(mid.db, p, p.full, used) && mid.db.now == p.m
    ensures NoFinish(events)
    ensures var s' := Run(s, events, limits);
            s' == s.(db := s'.db) && Rows(s'.db, p, p.full, used + 1) && s'.db.now == p.m
  {
    var submit := [SubmitUpload(p, used + 1)];
    events := front + submit;
    RunAppend(s, front, submit, limits);
    SubmitOne(Run(s, front, limits), p, limits, used);
  }

  /** With windows that end by midnight, nothing consumed after it is seen. */
  lemma DayUnseen(db: Ledger.Db, p: Plan, done: int, w: Calendar.Windows, user: int)
    requires Rows(db, p, done, done) && w.dayEnd <= p.m
    ensures Ledger.CountAll(db.reservations, w.dayStart, w.dayEnd, p.m - 1) == 0
    ensures Ledger.CountUser(db.reservations, user, w.dayStart, w.dayEnd, p.m - 1) == 0
  {
    var rs := db.reservations;
    forall id | id in rs
      ensures !Ledger.Counts(rs[id], w.dayStart, w.dayEnd, p.m - 1)
    {
      assert Row(db, p, id, done);
    }
    assert (set id | id in rs && Ledger.Counts(rs[id], w.dayStart, w.dayEnd, p.m - 1)) == {};
    assert (set id | id in rs && rs[id].user == user && Ledger.Counts(rs[id], w.dayStart, w.dayEnd, p.m - 1)) == {};
  }

  /** The month has room even if all of the night is seen, and if it ends, nothing of it is. */
  lemma MonthHasRoom(db: Ledger.Db, p: Plan, limits: Ledger.Limits, done: int, w: Calendar.Windows)
    requires Rows(db, p, done, done) && Fits(p, limits) && 0 <= done < Total(p) && EndsAt(w, p)
    ensures Ledger.CountUser(db.reservations, Owner(p, done + 1), w.monthStart, w.monthEnd, p.m - 1) < limits.monthly
  {
    var rs, user := db.reservations, Owner(p, done + 1);
    var month := set id | id in rs && rs[id].user == user && Ledger.Counts(rs[id], w.monthStart, w.monthEnd, p.m - 1);
    IntervalSize(1, done);
    assert month <= Interval(1, done);
    SubsetSize(month, Interval(1, done));
    if !p.shared || p.turn {
      forall id ensures id !in month {
        assert id in rs ==> Row(db, p, id, done);
      }
      assert month == {};
    }
  }

  lemma CreatedLate(db: Ledger.Db, p: Plan, limits: Ledger.Limits, done: int, flight: Flight)
    requires Rows(db, p, done, done) && Fits(p, limits) && p.full <= done < Total(p)
    requires flight.request == Upload(p, done + 1) && flight.at == p.m - 1 && EndsAt(flight.windows, p)
    ensures CreateIn(db, flight, limits) == Created(db, p, done + 1)
  {
    assert Able(db, p, done + 1);
    DayUnseen(db, p, done, flight.windows, Owner(p, done + 1));
    MonthHasRoom(db, p, limits, done, flight.windows);
    InsertCreates(db, p, done, done);
  }

  /** A late create is completed and submitted at once. */
  function Done(db: Ledger.Db, p: Plan, i: int): Ledger.Db {
    Ledger.Submit(Completed(db, p, i), Entry(p, i)).0
  }

  lemma DoneRows(db: Ledger.Db, p: Plan, done: int)
    requires Rows(db, p, done, done) && db.now == p.m && 0 <= done < Total(p)
    ensures Rows(Done(db, p, done + 1), p, done + 1, done + 1) && Done(db, p, done + 1).now == p.m
  {
    CompletedRows(db, p, done, done);
    SubmittedNext(Completed(db, p, done + 1), p, done + 1, done);
  }

  /** The remaining statements of one create make at most one late insert. */
  lemma OneFinish(s: State, i: int, limits: Ledger.Limits, scope: Ledger.Scope)
    ensures LateInserts(s, Statements(i), limits, scope) <= 1
  {
    var four := [Check(i), Lock(i), CountForUser(i), CountForAll(i)];
    assert Statements(i) == four + [Finish(i)];
    LateAppend(s, four, [Finish(i)], limits, scope);
    OnlyFinishIsLate(s, four, limits, scope);
    assert [Finish(i)][..0] == [];
    assert LateInserts(Run(s, four, limits), [Finish(i)][..0], limits, scope) == 0;
  }

  /** A waiting create resumes, and its upload is completed and submitted. */
  lemma RunResume(s: State, p: Plan, i: int, limits: Ledger.Limits, scope: Ledger.Scope) returns (events: seq<Event>)
    requires s.holder.None? && WaitsAt(s, p, i) && CreateIn(s.db, s.flights[i], limits) == Created(s.db, p, i)
    ensures Run(s, events, limits) == State(Done(s.db, p, i), s.flights - {i}, None)
    ensures LateInserts(s, events, limits, scope) <= 1
  {
    var created := State(Created(s.db, p, i), s.flights - {i}, None);
    Uninterrupted(s, i, limits);
    OneFinish(s, i, limits, scope);
    var rest := RunRest(s.db, p, i, created.flights, limits, scope);
    events := Statements(i) + rest;
    RunAppend(s, Statements(i), rest, limits);
    LateAppend(s, Statements(i), rest, limits, scope);
  }

  lemma RunRest(
    db: Ledger.Db, p: Plan, i: int, flights: map<int, Flight>, limits: Ledger.Limits, scope: Ledger.Scope)
    returns (events: seq<Event>)
    ensures var created := State(Created(db, p, i), flights, None);
            && Run(created, events, limits) == State(Done(db, p, i), flights, None)
            && LateInserts(created, events, limits, scope) == 0
  {
    var created := State(Created(db, p, i), flights, None);
    events := [CompleteUpload(p, i)] + [SubmitUpload(p, i)];
    OnlyFinishIsLate(created, events, limits, scope);
    RunFirst(created, CompleteUpload(p, i), [SubmitUpload(p, i)], limits);
    RunLast(created.(db := Completed(db, p, i)), SubmitUpload(p, i), limits);
  }

  lemma WaitsWithout(s: State, p: Plan, i: int, last: int, db: Ledger.Db)
    requires Waits(s, p, i, last) && i <= last
    ensures Waits(State(db, s.flights - {i}, None), p, i + 1, last)
  {
    forall j | i + 1 <= j <= last
      ensures WaitsAt(State(db, s.flights - {i}, None), p, j)
    {
      assert WaitsAt(s, p, j);
    }
  }

  ghost predicate InMorning(s: State, p: Plan, done: int) {
    Rows(s.db, p, done, done) && s.db.now == p.m && Waits(s, p, done + 1, Total(p))
  }

  lemma ResumeOne(s: State, p: Plan, limits: Ledger.Limits, done: int, scope: Ledger.Scope)
    returns (events: seq<Event>)
    requires InMorning(s, p, done) && Fits(p, limits) && p.full <= done < Total(p)
    ensures LateInserts(s, events, limits, scope) <= 1
    ensures InMorning(Run(s, events, limits), p, done + 1)
  {
    NextWaits(s, p, limits, done);
    MorningGoesOn(s, p, done);
    events := RunResume(s, p, done + 1, limits, scope);
  }

  lemma NextWaits(s: State, p: Plan, limits: Ledger.Limits, done: int)
    requires InMorning(s, p, done) && Fits(p, limits) && p.full <= done < Total(p)
    ensures WaitsAt(s, p, done + 1) && CreateIn(s.db, s.flights[done + 1], limits) == Created(s.db, p, done + 1)
  {
    assert WaitsAt(s, p, done + 1);
    CreatedLate(s.db, p, limits, done, s.flights[done + 1]);
  }

  lemma MorningGoesOn(s: State, p: Plan, done: int)
    requires InMorning(s, p, done) && 0 <= done < Total(p)
    ensures InMorning(State(Done(s.db, p, done + 1), s.flights - {done + 1}, None), p, done + 1)
  {
    DoneRows(s.db, p, done);
    WaitsWithout(s, p, done + 1, Total(p), Done(s.db, p, done + 1));
  }

  lemma {:induction false} Resumed(s: State, p: Plan, limits: Ledger.Limits, done: nat, scope: Ledger.Scope)
    returns (events: seq<Event>)
    requires InMorning(s, p, p.full) && Fits(p, limits) && done <= p.waiting
    ensures LateInserts(s, events, limits, scope) <= done
    ensures InMorning(Run(s, events, limits), p, p.full + done)
  {
    if done == 0 {
      events := NoneResumed(s, p, limits, scope);
    } else {
      var front := Resumed(s, p, limits, done - 1, scope);
      events := OneMore(s, front, p, limits, p.full + done - 1, scope);
    }
  }

  lemma NoneResumed(s: State, p: Plan, limits: Ledger.Limits, scope: Ledger.Scope) returns (events: seq<Event>)
    requires InMorning(s, p, p.full)
    ensures LateInserts(s, events, limits, scope) == 0 && InMorning(Run(s, events, limits), p, p.full + 0)
  {
    events := [];
  }

  lemma OneMore(s: State, front: seq<Event>, p: Plan, limits: Ledger.Limits, done: int, scope: Ledger.Scope)
    returns (events: seq<Event>)
    requires InMorning(Run(s, front, limits), p, done) && Fits(p, limits) && p.full <= done < Total(p)
    ensures LateInserts(s, events, limits, scope) <= LateInserts(s, front, limits, scope) + 1
    ensures InMorning(Run(s, events, limits), p, done + 1)
  {
    var last := ResumeOne(Run(s, front, limits), p, limits, done, scope);
    events := front + last;
    RunAppend(s, front, last, limits);
    LateAppend(s, front, last, limits, scope);
  }

  // ----- the whole night -----

  lemma WindowEnds(w: Calendar.Windows, p: Plan, day: int)
    requires Calendar.Fit(w, p.m - 1) && p.m == Calendar.Midnight(day)
    requires p.turn ==> Calendar.MonthOf(day - 1) != Calendar.MonthOf(day)
    ensures EndsAt(w, p)
  {
    Calendar.MidnightOrder(day, p.m);
    Calendar.MidnightOrder(day, p.m - 1);
    Calendar.MidnightOrder(day - 1, p.m - 1);
    var before, after := Calendar.DayOf(p.m - 1), Calendar.DayOf(p.m);
    assert before == day - 1 && after == day;
    assert w.dayStart <= p.m - 1 < w.dayEnd <==> before == before;
    assert w.dayStart <= p.m < w.dayEnd <==> after == before;
    assert w.monthStart <= p.m - 1 < w.monthEnd <==> Calendar.MonthOf(before) == Calendar.MonthOf(before);
    assert w.monthStart <= p.m < w.monthEnd <==> Calendar.MonthOf(after) == Calendar.MonthOf(before);
  }

  lemma EveningWindow(p: Plan, day: int)
    requires p.m == Calendar.Midnight(day)
    requires p.turn ==> Calendar.MonthOf(day - 1) != Calendar.MonthOf(day)
    ensures EndsAt(Calendar.UsageWindows(p.m - 1), p)
  {
    Calendar.WindowsFit(p.m - 1);
    WindowEnds(Calendar.UsageWindows(p.m - 1), p, day);
  }

  lemma EveningRuns(s: State, p: Plan, limits: Ledger.Limits, scope: Ledger.Scope) returns (events: seq<Event>)
    requires AtRest(s, p, 0) && Fits(p, limits) && EndsAt(Calendar.UsageWindows(p.m - 1), p)
    ensures LateInserts(s, events, limits, scope) == 0
    ensures var s' := Run(s, events, limits);
            s'.db.now == p.m - 1 && Rows(s'.db, p, p.full, 0) && Waits(s', p, p.full + 1, Total(p))
  {
    var prepare := Prepared(s, p, limits, p.full);
    var queue := Queued(Run(s, prepare, limits), p, limits, p.waiting);
    events := prepare + queue;
    RunAppend(s, prepare, queue, limits);
    NoTickNoMidnight(s, events, limits);
    NoMidnightNoLateInsert(s, events, limits, scope);
  }

  lemma TickKeeps(s: State, p: Plan, limits: Ledger.Limits)
    requires s.db.now == p.m - 1 && Rows(s.db, p, p.full, 0) && Waits(s, p, p.full + 1, Total(p))
    ensures var s' := Run(s, [Other(Ledger.Tick(1))], limits);
            s'.db.now == p.m && Rows(s'.db, p, p.full, 0) && Waits(s', p, p.full + 1, Total(p))
  {
    RunLast(s, Other(Ledger.Tick(1)), limits);
    var s' := s.(db := s.db.(now := p.m));
    assert Next(s, Other(Ledger.Tick(1)), limits) == s';
    forall i | 1 <= i <= p.full ensures Row(s'.db, p, i, 0) { assert Row(s.db, p, i, 0); }
    forall i | 1 <= i <= Total(p) ensures Able(s'.db, p, i) { assert Able(s.db, p, i); }
    WaitsKept(s, s', p, p.full + 1, Total(p));
  }

  lemma SubmitRuns(s: State, p: Plan, limits: Ledger.Limits) returns (events: seq<Event>)
    requires s.db.now == p.m - 1 && Rows(s.db, p, p.full, 0) && Waits(s, p, p.full + 1, Total(p))
    ensures NoFinish(events) && InMorning(Run(s, events, limits), p, p.full)
  {
    var tick := [Other(Ledger.Tick(1))];
    TickKeeps(s, p, limits);
    var s1 := Run(s, tick, limits);
    var submit := SubmittedAll(s1, p, limits, p.full);
    WaitsKept(s1, Run(s1, submit, limits), p, p.full + 1, Total(p));
    events := tick + submit;
    RunAppend(s, tick, submit, limits);
  }

  lemma MorningRuns(s: State, p: Plan, limits: Ledger.Limits, scope: Ledger.Scope) returns (events: seq<Event>)
    requires s.db.now == p.m - 1 && Rows(s.db, p, p.full, 0) && Waits(s, p, p.full + 1, Total(p)) && Fits(p, limits)
    ensures LateInserts(s, events, limits, scope) <= p.waiting
    ensures Rows(Run(s, events, limits).db, p, Total(p), Total(p))
  {
    var submit := SubmitRuns(s, p, limits);
    var resume := Resumed(Run(s, submit, limits), p, limits, p.waiting, scope);
    events := submit + resume;
    RunAppend(s, submit, resume, limits);
    LateAppend(s, submit, resume, limits, scope);
    OnlyFinishIsLate(s, submit, limits, scope);
  }

  /** All that the night consumes is consumed at midnight. */
  lemma ConsumedAtMidnight(db: Ledger.Db, p: Plan, scope: Ledger.Scope)
    requires Rows(db, p, Total(p), Total(p)) && (scope == Ledger.GlobalDay || (p.shared && Ledger.Covers(scope, 0)))
    ensures |Ledger.ConsumedRows(db.reservations, scope, Ledger.PeriodOf(scope, p.m))| == Total(p)
  {
    var rows := Ledger.ConsumedRows(db.reservations, scope, Ledger.PeriodOf(scope, p.m));
    IntervalSize(1, Total(p));
    forall i
      ensures i in rows <==> i in Interval(1, Total(p))
    {
      assert i in db.reservations ==> Row(db, p, i, Total(p));
    }
    assert rows == Interval(1, Total(p));
  }

  /**
   * The whole night: before midnight the platform or the user is filled up and the
   * waiting creates start; after it the prepared uploads are submitted, and then the
   * creates resume one by one, each late.
   */
  lemma NightRuns(db: Ledger.Db, p: Plan, limits: Ledger.Limits, day: int, scope: Ledger.Scope)
    returns (events: seq<Event>)
    requires p.m == Calendar.Midnight(day) && Rows(db, p, 0, 0) && db.now == p.m - 1 && Fits(p, limits)
    requires p.turn ==> Calendar.MonthOf(day - 1) != Calendar.MonthOf(day)
    requires scope == Ledger.GlobalDay || (p.shared && Ledger.Covers(scope, 0))
    ensures LateInserts(Begin(db), events, limits, scope) <= p.waiting
    ensures |Ledger.ConsumedRows(Run(Begin(db), events, limits).db.reservations, scope, Ledger.PeriodOf(scope, p.m))|
            == Total(p)
  {
    EveningWindow(p, day);
    var evening := EveningRuns(Begin(db), p, limits, scope);
    var morning := MorningRuns(Run(Begin(db), evening, limits), p, limits, scope);
    events := evening + morning;
    RunAppend(Begin(db), evening, morning, limits);
    LateAppend(Begin(db), evening, morning, limits, scope);
    ConsumedAtMidnight(Run(Begin(db), events, limits).db, p, scope);
  }

  // ----- the three ceilings -----

  const SUBSCRIPTION: Billing.SubscriptionRow :=
    Billing.SubscriptionRow("pro", "store", "production", Billing.Active, true, true, None, None, "", 0)

  /** A new deployment one instant before midnight, with active subscribers and open challenges. */
  function Deployment(p: Plan): Ledger.Db {
    var n := Total(p);
    Ledger.Db(
      p.m - 1,
      map u | 0 <= u <= n && Between(u, 0, n) :: true,
      map c | 1 <= c <= n && Between(c, 1, n) :: Ledger.Challenge(true, p.m - DAY, p.m + DAY),
      Billing.Tables(map u | 0 <= u <= n && Between(u, 0, n) :: (u, PRO) := SUBSCRIPTION,
                     map u | 0 <= u <= n && Between(u, 0, n) :: (u, PRO) := Billing.Project(SUBSCRIPTION), {}),
      map[], map[], map[], {})
  }

  lemma DeploymentReady(p: Plan)
    ensures Ledger.Initial(Deployment(p)) && Rows(Deployment(p), p, 0, 0) && Deployment(p).now == p.m - 1
  {
    var db := Deployment(p);
    forall i | 1 <= i <= Total(p)
      ensures Able(db, p, i)
    {
      var u := Owner(p, i);
      assert Between(u, 0, Total(p)) && Between(i, 1, Total(p));
      assert u in db.accounts && (u, PRO) in db.billing.entitlements;
    }
  }

  /**
   * Across any midnight, under any limits that admit an upload at all, `waiting` late
   * creates exceed the platform's day by exactly as many.
   */
  lemma PlatformExceeded(day: int, limits: Ledger.Limits, waiting: nat) returns (db: Ledger.Db, events: seq<Event>)
    requires limits.daily >= 1 && limits.monthly >= 1 && limits.globalDaily >= 1
    ensures Ledger.Initial(db)
    ensures |Ledger.ConsumedRows(Run(Begin(db), events, limits).db.reservations, Ledger.GlobalDay, day)|
            == limits.globalDaily + waiting
    ensures LateInserts(Begin(db), events, limits, Ledger.GlobalDay) == waiting
  {
    var p := Plan(Calendar.Midnight(day), limits.globalDaily, waiting, false, false);
    db := Deployment(p);
    DeploymentReady(p);
    Calendar.MidnightOrder(day, p.m);
    events := NightRuns(db, p, limits, day, Ledger.GlobalDay);
    LateInsertsBound(db, events, limits, Ledger.GlobalDay, day);
  }

  /** And the day of one user, as far as the platform's day and the user's month leave room. */
  lemma UserExceeded(day: int, limits: Ledger.Limits, waiting: nat) returns (db: Ledger.Db, events: seq<Event>)
    requires 1 <= limits.daily <= limits.globalDaily && limits.daily + waiting <= limits.monthly
    ensures Ledger.Initial(db)
    ensures |Ledger.ConsumedRows(Run(Begin(db), events, limits).db.reservations, Ledger.UserDay(0), day)|
            == limits.daily + waiting
    ensures LateInserts(Begin(db), events, limits, Ledger.UserDay(0)) == waiting
  {
    var p := Plan(Calendar.Midnight(day), limits.daily, waiting, true, false);
    db := Deployment(p);
    DeploymentReady(p);
    Calendar.MidnightOrder(day, p.m);
    events := NightRuns(db, p, limits, day, Ledger.UserDay(0));
    LateInsertsBound(db, events, limits, Ledger.UserDay(0), day);
  }

  /** The lowest of the three limits. */
  function Lowest(limits: Ledger.Limits): int {
    if limits.daily <= limits.monthly && limits.daily <= limits.globalDaily then limits.daily
    else if limits.monthly <= limits.globalDaily then limits.monthly else limits.globalDaily
  }

  /**
   * At a midnight that ends a month, all limits start afresh: under any limits one user
   * consumes `waiting` more than the lowest of them, the month included, by as many late
   * inserts if that is the ceiling looked at.
   */
  lemma TurnOfMonthExceeded(day: int, limits: Ledger.Limits, waiting: nat, scope: Ledger.Scope)
    returns (db: Ledger.Db, events: seq<Event>)
    requires limits.daily >= 1 && limits.monthly >= 1 && limits.globalDaily >= 1
    requires Calendar.MonthOf(day - 1) != Calendar.MonthOf(day) && Ledger.Covers(scope, 0)
    ensures Ledger.Initial(db)
    ensures var period := Ledger.PeriodOf(scope, Calendar.Midnight(day));
            |Ledger.ConsumedRows(Run(Begin(db), events, limits).db.reservations, scope, period)|
            == Lowest(limits) + waiting
    ensures Ledger.Ceiling(scope, limits) == Lowest(limits) ==>
              LateInserts(Begin(db), events, limits, scope) == waiting
  {
    var p := Plan(Calendar.Midnight(day), Lowest(limits), waiting, true, true);
    db := Deployment(p);
    DeploymentReady(p);
    events := NightRuns(db, p, limits, day, scope);
    LateInsertsBound(db, events, limits, scope, Ledger.PeriodOf(scope, p.m));
  }
}
