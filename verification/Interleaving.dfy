/**
 * `CreatePaidMediaUpload` (internal/store/subscriptions.go) statement by statement.
 * Any number of creates are in flight; between their statements every other
 * transaction may commit. Only the advisory lock orders the creates; the row locks
 * they also take are ignored, so more interleavings are allowed than occur.
 */
module Interleaving {
  import opened Prelude
  import Calendar
  import Ledger

  datatype Stage =
    | Started
    | Admitted
    | Locked
    | UserCounted(daily: nat, monthly: nat)
    | AllCounted(daily: nat, monthly: nat, global: nat)

  /** A create in flight; `at` is its `params.Now`, read before the first statement, and `windows` are those of `at`. */
  datatype Flight = Flight(request: Ledger.Request, at: int, windows: Calendar.Windows, stage: Stage)

  function NewFlight(q: Ledger.Request, at: int): Flight {
    Flight(q, at, Calendar.UsageWindows(at), Started)
  }

  datatype State = State(db: Ledger.Db, flights: map<int, Flight>, holder: Option<int>)

  datatype Event =
    | Other(step: Ledger.Step)
    | Start(f: int, request: Ledger.Request)
    | Check(f: int)
    | Lock(f: int)
    | CountForUser(f: int)
    | CountForAll(f: int)
    | Finish(f: int)
    | Abort(f: int)

  predicate InFlight(s: State, f: int, stage: Stage) {
    f in s.flights && s.flights[f].stage == stage
  }

  function Advance(s: State, f: int, stage: Stage): State
    requires f in s.flights
  {
    s.(flights := s.flights[f := s.flights[f].(stage := stage)])
  }

  /** The end of a transaction removes the flight and releases its lock. */
  function End(s: State, f: int): State {
    s.(flights := s.flights - {f}, holder := if s.holder == Some(f) then None else s.holder)
  }

  /** One statement; an event that is not possible in `s` changes nothing. */
  function Next(s: State, e: Event, limits: Ledger.Limits): State {
    match e
    case Other(step) =>
      if step.DoCreate? then s else s.(db := Ledger.Next(s.db, step, limits))
    case Start(f, q) =>
      if f in s.flights then s else s.(flights := s.flights[f := NewFlight(q, s.db.now)])
    case Check(f) =>
      if !InFlight(s, f, Started) then s
      else if Ledger.Gate(s.db, s.flights[f].request, s.flights[f].at).Some? then End(s, f)
      else Advance(s, f, Admitted)
    case Lock(f) =>
      if !InFlight(s, f, Admitted) || s.holder.Some? then s
      else Advance(s, f, Locked).(holder := Some(f))
    case CountForUser(f) =>
      if !InFlight(s, f, Locked) then s
      else
        var (q, at, w) := (s.flights[f].request, s.flights[f].at, s.flights[f].windows);
        Advance(s, f, UserCounted(Ledger.CountUser(s.db.reservations, q.user, w.dayStart, w.dayEnd, at),
                                  Ledger.CountUser(s.db.reservations, q.user, w.monthStart, w.monthEnd, at)))
    case CountForAll(f) =>
      if !(f in s.flights && s.flights[f].stage.UserCounted?) then s
      else
        var (at, w, stage) := (s.flights[f].at, s.flights[f].windows, s.flights[f].stage);
        Advance(s, f, AllCounted(stage.daily, stage.monthly,
                                 Ledger.CountAll(s.db.reservations, w.dayStart, w.dayEnd, at)))
    case Finish(f) =>
      if !(f in s.flights && s.flights[f].stage.AllCounted?) then s
      else
        var (q, w, stage) := (s.flights[f].request, s.flights[f].windows, s.flights[f].stage);
        var full := Ledger.Capacity(limits, w, stage.global, stage.daily, stage.monthly);
        if full.Some? then End(s, f) else End(s, f).(db := Ledger.Insert(s.db, q).0)
    case Abort(f) => End(s, f)
  }

  function Run(s: State, events: seq<Event>, limits: Ledger.Limits): State {
    if events == [] then s else Next(Run(s, events[..|events| - 1], limits), events[|events| - 1], limits)
  }

  lemma {:induction false} RunAppend(s: State, a: seq<Event>, b: seq<Event>, limits: Ledger.Limits)
    ensures Run(s, a + b, limits) == Run(Run(s, a, limits), b, limits)
    decreases |b|
  {
    if b == [] {
      assert a + b == a;
    } else {
      RunAppend(s, a, b[..|b| - 1], limits);
      assert (a + b)[..|a + b| - 1] == a + b[..|b| - 1];
    }
  }

  lemma RunFirst(s: State, e: Event, rest: seq<Event>, limits: Ledger.Limits)
    ensures Run(s, [e] + rest, limits) == Run(Next(s, e, limits), rest, limits)
  {
    RunAppend(s, [e], rest, limits);
    assert [e][..0] == [];
  }

  // ----- inserts, and late ones -----

  /** A statement by which a create inserts its rows. */
  predicate Inserts(s: State, e: Event, limits: Ledger.Limits) {
    && e.Finish? && e.f in s.flights && s.flights[e.f].stage.AllCounted?
    && Passed(s.flights[e.f], limits) && Ledger.Insert(s.db, s.flights[e.f].request).1.None?
  }

  /** The capacity check on what the create has counted. */
  predicate Passed(flight: Flight, limits: Ledger.Limits)
    requires flight.stage.AllCounted?
  {
    Ledger.Capacity(limits, flight.windows, flight.stage.global, flight.stage.daily, flight.stage.monthly).None?
  }

  /** An insert under a ceiling whose day or month has ended since the create started. */
  predicate LateInsert(s: State, e: Event, limits: Ledger.Limits, scope: Ledger.Scope) {
    && Inserts(s, e, limits) && Ledger.Covers(scope, s.flights[e.f].request.user)
    && Ledger.PeriodOf(scope, s.flights[e.f].at) != Ledger.PeriodOf(scope, s.db.now)
  }

  function LateInserts(s: State, events: seq<Event>, limits: Ledger.Limits, scope: Ledger.Scope): nat {
    if events == [] then 0
    else
      var before := Run(s, events[..|events| - 1], limits);
      LateInserts(s, events[..|events| - 1], limits, scope)
      + if LateInsert(before, events[|events| - 1], limits, scope) then 1 else 0
  }

  lemma {:induction false} LateAppend(
    s: State, a: seq<Event>, b: seq<Event>, limits: Ledger.Limits, scope: Ledger.Scope)
    ensures LateInserts(s, a + b, limits, scope) ==
            LateInserts(s, a, limits, scope) + LateInserts(Run(s, a, limits), b, limits, scope)
    decreases |b|
  {
    if b == [] {
      assert a + b == a;
    } else {
      LateAppend(s, a, b[..|b| - 1], limits, scope);
      RunAppend(s, a, b[..|b| - 1], limits);
      assert (a + b)[..|a + b| - 1] == a + b[..|b| - 1];
    }
  }

  lemma {:induction false} OnlyFinishIsLate(s: State, events: seq<Event>, limits: Ledger.Limits, scope: Ledger.Scope)
    requires forall i :: 0 <= i < |events| ==> !events[i].Finish?
    ensures LateInserts(s, events, limits, scope) == 0
  {
    if events != [] {
      OnlyFinishIsLate(s, events[..|events| - 1], limits, scope);
    }
  }

  // ----- the invariant -----

  /** What a create has counted for a scope, if it has. */
  function CountedFor(flight: Flight, scope: Ledger.Scope): Option<nat> {
    match flight.stage
    case UserCounted(daily, monthly) => UserCount(flight.request.user, scope, daily, monthly)
    case AllCounted(daily, monthly, global) =>
      if scope.GlobalDay? then Some(global) else UserCount(flight.request.user, scope, daily, monthly)
    case _ => None
  }

  function UserCount(user: int, scope: Ledger.Scope, daily: nat, monthly: nat): Option<nat> {
    if scope == Ledger.UserDay(user) then Some(daily)
    else if scope == Ledger.UserMonth(user) then Some(monthly)
    else None
  }

  ghost predicate Timely(s: State) {
    forall f :: f in s.flights ==>
      Calendar.Fit(s.flights[f].windows, s.flights[f].at) && s.flights[f].at <= s.db.now
  }

  /** At most one create is past the lock. */
  ghost predicate Exclusive(s: State) {
    forall f :: f in s.flights && !s.flights[f].stage.Started? && !s.flights[f].stage.Admitted? ==> s.holder == Some(f)
  }

  /** In the day or month in which a create started, what it has counted is still an upper bound of the load. */
  ghost predicate CountHolds(s: State, f: int, scope: Ledger.Scope)
    requires f in s.flights
  {
    CountedFor(s.flights[f], scope).Some?
    && Ledger.PeriodOf(scope, s.flights[f].at) == Ledger.PeriodOf(scope, s.db.now) ==>
      |Ledger.Load(s.db.reservations, scope, s.db.now)| <= CountedFor(s.flights[f], scope).value
  }

  ghost predicate CountsHold(s: State, scope: Ledger.Scope) {
    forall f :: f in s.flights ==> CountHolds(s, f, scope)
  }

  ghost predicate Sound(s: State) {
    Ledger.Consistent(s.db) && Ledger.Paired(s.db) && Timely(s) && Exclusive(s)
  }

  ghost predicate Inv(s: State, scope: Ledger.Scope, bound: int) {
    Sound(s) && Ledger.Within(s.db, scope, bound) && CountsHold(s, scope)
  }

  /** The load seen from an earlier instant of the same day or month covers the load now. */
  lemma EarlierLoadCovers(rs: map<int, Ledger.Reservation>, scope: Ledger.Scope, at: int, now: int)
    requires at <= now && Ledger.PeriodOf(scope, at) == Ledger.PeriodOf(scope, now)
    ensures |Ledger.Load(rs, scope, now)| <= |Ledger.Load(rs, scope, at)|
  {
    forall id | id in Ledger.Load(rs, scope, now)
      ensures id in Ledger.Load(rs, scope, at)
    {
      assert Ledger.ConsumedIn(rs[id], scope, Ledger.PeriodOf(scope, at)) || Ledger.Live(rs[id], scope, at);
    }
    SubsetSize(Ledger.Load(rs, scope, now), Ledger.Load(rs, scope, at));
  }

  lemma UnlockedAddsNoLoad(db: Ledger.Db, step: Ledger.Step, limits: Ledger.Limits, scope: Ledger.Scope)
    requires Ledger.Consistent(db) && Ledger.Unlocked(step)
    ensures var db' := Ledger.Next(db, step, limits);
            |Ledger.Load(db'.reservations, scope, db'.now)| <= |Ledger.Load(db.reservations, scope, db.now)|
  {
    var db' := Ledger.Next(db, step, limits);
    Ledger.OnlyCreateAddsLoad(db, step, limits, scope);
    SubsetSize(Ledger.Load(db'.reservations, scope, db'.now), Ledger.Load(db.reservations, scope, db.now));
  }

  /** Counts stay upper bounds while the load does not grow. */
  lemma CountsCarry(s: State, db': Ledger.Db, scope: Ledger.Scope)
    requires Timely(s) && CountsHold(s, scope) && s.db.now <= db'.now
    requires |Ledger.Load(db'.reservations, scope, db'.now)| <= |Ledger.Load(s.db.reservations, scope, s.db.now)|
    ensures CountsHold(s.(db := db'), scope)
  {
    Ledger.PeriodMonotone(scope, s.db.now, db'.now);
    forall f | f in s.flights
      ensures CountHolds(s.(db := db'), f, scope)
    {
      assert CountHolds(s, f, scope);
      Ledger.PeriodMonotone(scope, s.flights[f].at, s.db.now);
    }
  }

  lemma OtherKeepsInv(s: State, step: Ledger.Step, limits: Ledger.Limits, scope: Ledger.Scope, bound: int)
    requires Inv(s, scope, bound) && Ledger.Unlocked(step)
    ensures Inv(s.(db := Ledger.Next(s.db, step, limits)), scope, bound)
  {
    Ledger.ClockForward(s.db, step, limits);
    Ledger.StepConsistent(s.db, step, limits);
    Ledger.UnlockedKeepsWithin(s.db, step, limits, scope, bound);
    UnlockedAddsNoLoad(s.db, step, limits, scope);
    CountsCarry(s, Ledger.Next(s.db, step, limits), scope);
  }

  /** A count is an upper bound of the load when it is taken, in the period of its create. */
  lemma CountTaken(s: State, f: int, scope: Ledger.Scope)
    requires Timely(s) && f in s.flights
    requires Ledger.PeriodOf(scope, s.flights[f].at) == Ledger.PeriodOf(scope, s.db.now)
    ensures var (user, at, w) := (s.flights[f].request.user, s.flights[f].at, s.flights[f].windows);
            var load := |Ledger.Load(s.db.reservations, scope, s.db.now)|;
            && (scope == Ledger.UserDay(user) ==>
                  load <= Ledger.CountUser(s.db.reservations, user, w.dayStart, w.dayEnd, at))
            && (scope == Ledger.UserMonth(user) ==>
                  load <= Ledger.CountUser(s.db.reservations, user, w.monthStart, w.monthEnd, at))
            && (scope == Ledger.GlobalDay ==> load <= Ledger.CountAll(s.db.reservations, w.dayStart, w.dayEnd, at))
  {
    var flight := s.flights[f];
    Ledger.FittingQueries(s.db.reservations, flight.request.user, flight.at, flight.windows);
    EarlierLoadCovers(s.db.reservations, scope, flight.at, s.db.now);
  }

  /** A flight that moves on leaves the counts of all others as they are. */
  lemma AdvanceKeepsInv(s: State, f: int, stage: Stage, holder: Option<int>, scope: Ledger.Scope, bound: int)
    requires Inv(s, scope, bound) && f in s.flights
    requires || (stage == Admitted && holder == s.holder && s.flights[f].stage.Started?)
             || (stage == Locked && s.holder.None? && holder == Some(f))
             || (!stage.Started? && !stage.Admitted? && holder == s.holder == Some(f))
    requires CountHolds(Advance(s, f, stage).(holder := holder), f, scope)
    ensures Inv(Advance(s, f, stage).(holder := holder), scope, bound)
  {
    var s' := Advance(s, f, stage).(holder := holder);
    forall g | g in s'.flights
      ensures CountHolds(s', g, scope)
    {
      assert g != f ==> CountHolds(s, g, scope);
    }
  }

  lemma CountKeepsInv(s: State, e: Event, limits: Ledger.Limits, scope: Ledger.Scope, bound: int)
    requires Inv(s, scope, bound) && (e.CountForUser? || e.CountForAll?)
    ensures Inv(Next(s, e, limits), scope, bound)
  {
    var s' := Next(s, e, limits);
    if s' != s {
      var f := e.f;
      assert s' == Advance(s, f, s'.flights[f].stage).(holder := s.holder);
      NewCountHolds(s, e, limits, scope);
      AdvanceKeepsInv(s, f, s'.flights[f].stage, s.holder, scope, bound);
    }
  }

  /** What has just been counted bounds the load, in the period of the create. */
  lemma NewCountHolds(s: State, e: Event, limits: Ledger.Limits, scope: Ledger.Scope)
    requires Sound(s) && CountsHold(s, scope) && (e.CountForUser? || e.CountForAll?) && Next(s, e, limits) != s
    ensures CountHolds(Next(s, e, limits), e.f, scope)
  {
    assert CountHolds(s, e.f, scope);
    if Ledger.PeriodOf(scope, s.flights[e.f].at) == Ledger.PeriodOf(scope, s.db.now) {
      CountTaken(s, e.f, scope);
    }
  }

  lemma EndKeepsInv(s: State, f: int, scope: Ledger.Scope, bound: int)
    requires Inv(s, scope, bound)
    ensures Inv(End(s, f), scope, bound)
  {
    forall g | g in End(s, f).flights
      ensures CountHolds(End(s, f), g, scope)
    {
      assert CountHolds(s, g, scope);
    }
  }

  /** Passing the check or taking the lock changes no row and counts nothing. */
  lemma GateKeepsInv(s: State, e: Event, limits: Ledger.Limits, scope: Ledger.Scope, bound: int)
    requires Inv(s, scope, bound) && (e.Check? || e.Lock?)
    ensures Inv(Next(s, e, limits), scope, bound)
  {
    var f, s' := e.f, Next(s, e, limits);
    if f in s.flights && s' != s {
      if f !in s'.flights {
        EndKeepsInv(s, f, scope, bound);
      } else {
        AdvanceKeepsInv(s, f, if e.Check? then Admitted else Locked, s'.holder, scope, bound);
      }
    }
  }

  lemma StartKeepsInv(s: State, f: int, q: Ledger.Request, limits: Ledger.Limits, scope: Ledger.Scope, bound: int)
    requires Inv(s, scope, bound)
    ensures Inv(Next(s, Start(f, q), limits), scope, bound)
  {
    if f !in s.flights {
      var flight := NewFlight(q, s.db.now);
      Calendar.WindowsFit(s.db.now);
      StartedKeepsInv(s, f, flight, scope, bound);
    }
  }

  lemma StartedKeepsInv(s: State, f: int, flight: Flight, scope: Ledger.Scope, bound: int)
    requires Inv(s, scope, bound) && f !in s.flights && flight.stage.Started?
    requires flight.at == s.db.now && Calendar.Fit(flight.windows, flight.at)
    ensures Inv(s.(flights := s.flights[f := flight]), scope, bound)
  {
    var s' := s.(flights := s.flights[f := flight]);
    forall g | g in s'.flights
      ensures CountHolds(s', g, scope)
    {
      assert g != f ==> CountHolds(s, g, scope);
    }
  }

  /** A create that passes its check in the period it started in finds room under the ceiling. */
  lemma PassedHasRoom(s: State, e: Event, limits: Ledger.Limits, scope: Ledger.Scope)
    requires CountsHold(s, scope) && Inserts(s, e, limits) && !LateInsert(s, e, limits, scope)
    requires Ledger.Covers(scope, s.flights[e.f].request.user)
    ensures |Ledger.Load(s.db.reservations, scope, s.db.now)| < Ledger.Ceiling(scope, limits)
  {
    assert CountHolds(s, e.f, scope);
  }

  lemma InsertWithin(s: State, e: Event, limits: Ledger.Limits, scope: Ledger.Scope, bound: int)
    requires CountsHold(s, scope) && Ledger.Within(s.db, scope, bound)
    requires Inserts(s, e, limits) && bound >= Ledger.Ceiling(scope, limits)
    ensures Ledger.Within(Ledger.Insert(s.db, s.flights[e.f].request).0, scope,
                          bound + if LateInsert(s, e, limits, scope) then 1 else 0)
  {
    var q := s.flights[e.f].request;
    if Ledger.Covers(scope, q.user) && !LateInsert(s, e, limits, scope) {
      PassedHasRoom(s, e, limits, scope);
    }
    Ledger.InsertKeepsWithin(s.db, q, scope, bound + if LateInsert(s, e, limits, scope) then 1 else 0);
  }

  /** An insert in time keeps the bound; a late one exceeds it by at most one. */
  lemma FinishKeepsInv(s: State, e: Event, limits: Ledger.Limits, scope: Ledger.Scope, bound: int)
    requires Inv(s, scope, bound) && e.Finish? && bound >= Ledger.Ceiling(scope, limits)
    ensures Inv(Next(s, e, limits), scope, bound + if LateInsert(s, e, limits, scope) then 1 else 0)
  {
    if Inserts(s, e, limits) {
      InsertKeepsInv(s, e, limits, scope, bound);
    } else {
      FailedFinish(s, e, limits);
      EndKeepsInv(s, e.f, scope, bound);
    }
  }

  lemma InsertKeepsInv(s: State, e: Event, limits: Ledger.Limits, scope: Ledger.Scope, bound: int)
    requires Inv(s, scope, bound) && Inserts(s, e, limits) && bound >= Ledger.Ceiling(scope, limits)
    ensures Inv(Next(s, e, limits), scope, bound + if LateInsert(s, e, limits, scope) then 1 else 0)
  {
    var db' := Ledger.Insert(s.db, s.flights[e.f].request).0;
    FinishInserts(s, e, limits);
    InsertWithin(s, e, limits, scope, bound);
    Ledger.InsertConsistent(s.db, s.flights[e.f].request);
    OthersUncounted(s, e.f, db', scope);
    EndKeepsInv(s, e.f, scope, bound);
  }

  lemma FinishInserts(s: State, e: Event, limits: Ledger.Limits)
    requires Inserts(s, e, limits)
    ensures Next(s, e, limits) == End(s, e.f).(db := Ledger.Insert(s.db, s.flights[e.f].request).0)
  {
  }

  lemma FailedFinish(s: State, e: Event, limits: Ledger.Limits)
    requires e.Finish? && !Inserts(s, e, limits)
    ensures Next(s, e, limits) == s || Next(s, e, limits) == End(s, e.f)
  {
  }

  /** While one create is past the lock, no other has counted anything. */
  lemma OthersUncounted(s: State, f: int, db': Ledger.Db, scope: Ledger.Scope)
    requires Exclusive(s) && f in s.flights && s.flights[f].stage.AllCounted?
    ensures CountsHold(End(s, f).(db := db'), scope)
  {
    forall g | g in End(s, f).flights
      ensures CountedFor(s.flights[g], scope).None?
    {
      assert s.flights[g].stage.Started? || s.flights[g].stage.Admitted?;
    }
  }

  /** Every statement of every create, and every other transaction, keeps the bound but for late inserts. */
  lemma StepKeepsInv(s: State, e: Event, limits: Ledger.Limits, scope: Ledger.Scope, bound: int)
    requires Inv(s, scope, bound) && bound >= Ledger.Ceiling(scope, limits)
    ensures Inv(Next(s, e, limits), scope, bound + if LateInsert(s, e, limits, scope) then 1 else 0)
  {
    match e
    case Other(step) => if !step.DoCreate? { OtherKeepsInv(s, step, limits, scope, bound); }
    case Start(f, q) => StartKeepsInv(s, f, q, limits, scope, bound);
    case Check(_) => GateKeepsInv(s, e, limits, scope, bound);
    case Lock(_) => GateKeepsInv(s, e, limits, scope, bound);
    case CountForUser(_) => CountKeepsInv(s, e, limits, scope, bound);
    case CountForAll(_) => CountKeepsInv(s, e, limits, scope, bound);
    case Finish(_) => FinishKeepsInv(s, e, limits, scope, bound);
    case Abort(f) => EndKeepsInv(s, f, scope, bound);
  }

  lemma {:induction false} RunKeepsInv(
    s: State, events: seq<Event>, limits: Ledger.Limits, scope: Ledger.Scope, bound: int)
    requires Inv(s, scope, bound) && bound >= Ledger.Ceiling(scope, limits)
    ensures Inv(Run(s, events, limits), scope, bound + LateInserts(s, events, limits, scope))
  {
    if events != [] {
      var front := events[..|events| - 1];
      RunKeepsInv(s, front, limits, scope, bound);
      StepKeepsInv(Run(s, front, limits), events[|events| - 1], limits, scope,
                   bound + LateInserts(s, front, limits, scope));
    }
  }

  /** The state of a new deployment, with no create in flight. */
  function Begin(db: Ledger.Db): State { State(db, map[], None) }

  lemma BeginInv(db: Ledger.Db, limits: Ledger.Limits, scope: Ledger.Scope)
    requires Ledger.Initial(db)
    ensures Inv(Begin(db), scope, Ledger.Ceiling(scope, limits))
  {
    Ledger.InitialInv(db, limits);
  }

  /**
   * The allowance bound over every interleaving, whatever the clock does: a ceiling is
   * exceeded at most by the number of late inserts under it.
   */
  lemma LateInsertsBound(
    db: Ledger.Db, events: seq<Event>, limits: Ledger.Limits, scope: Ledger.Scope, period: int)
    requires Ledger.Initial(db)
    ensures |Ledger.ConsumedRows(Run(Begin(db), events, limits).db.reservations, scope, period)|
            <= Ledger.Ceiling(scope, limits) + LateInserts(Begin(db), events, limits, scope)
  {
    BeginInv(db, limits, scope);
    RunKeepsInv(Begin(db), events, limits, scope, Ledger.Ceiling(scope, limits));
  }

  /**
   * Check-then-insert is safe: however the statements of concurrent creates and all
   * other transactions interleave, no ceiling is ever exceeded without a late insert.
   */
  lemma AllowanceSurvivesInterleaving(
    db: Ledger.Db, events: seq<Event>, limits: Ledger.Limits, scope: Ledger.Scope, period: int)
    requires Ledger.Initial(db) && LateInserts(Begin(db), events, limits, scope) == 0
    ensures |Ledger.ConsumedRows(Run(Begin(db), events, limits).db.reservations, scope, period)|
            <= Ledger.Ceiling(scope, limits)
  {
    LateInsertsBound(db, events, limits, scope, period);
  }

  // ----- no midnight, no late insert -----

  /** The clock stays on one UTC day while a create is in flight. */
  ghost predicate NoMidnight(s: State, e: Event) {
    e.Other? && e.step.Tick? ==>
      forall f :: f in s.flights ==> Calendar.DayOf(s.flights[f].at) == Calendar.DayOf(s.db.now + e.step.elapsed)
  }

  ghost predicate NoMidnightInFlight(s: State, events: seq<Event>, limits: Ledger.Limits) {
    events != [] ==>
      && NoMidnightInFlight(s, events[..|events| - 1], limits)
      && NoMidnight(Run(s, events[..|events| - 1], limits), events[|events| - 1])
  }

  lemma {:induction false} NoTickNoMidnight(s: State, events: seq<Event>, limits: Ledger.Limits)
    requires forall i :: 0 <= i < |events| ==> !(events[i].Other? && events[i].step.Tick?)
    ensures NoMidnightInFlight(s, events, limits)
  {
    if events != [] {
      NoTickNoMidnight(s, events[..|events| - 1], limits);
    }
  }

  ghost predicate SameDay(s: State) {
    forall f :: f in s.flights ==> Calendar.DayOf(s.flights[f].at) == Calendar.DayOf(s.db.now)
  }

  lemma StepSameDay(s: State, e: Event, limits: Ledger.Limits)
    requires SameDay(s) && NoMidnight(s, e)
    ensures SameDay(Next(s, e, limits))
  {
    match e
    case Other(step) => Ledger.ClockForward(s.db, step, limits);
    case _ =>
  }

  /** If no create in flight sees midnight pass, no insert is late, under any ceiling. */
  lemma {:induction false} NoMidnightNoLateInsert(
    s: State, events: seq<Event>, limits: Ledger.Limits, scope: Ledger.Scope)
    requires SameDay(s) && NoMidnightInFlight(s, events, limits)
    ensures SameDay(Run(s, events, limits)) && LateInserts(s, events, limits, scope) == 0
  {
    if events != [] {
      var front, e := events[..|events| - 1], events[|events| - 1];
      NoMidnightNoLateInsert(s, front, limits, scope);
      var before := Run(s, front, limits);
      StepSameDay(before, e, limits);
      if Inserts(before, e, limits) {
        Ledger.SameDaySamePeriod(scope, before.flights[e.f].at, before.db.now);
      }
    }
  }

  // ----- exactly when the ceilings hold -----

  /** An insert of a reservation that is still to expire passes the capacity check of the instant it commits at. */
  predicate RoomAtCommit(s: State, e: Event, limits: Ledger.Limits) {
    Inserts(s, e, limits) && s.flights[e.f].request.expiresAt > s.db.now ==>
      Ledger.Full(s.db, s.flights[e.f].request.user, limits).None?
  }

  ghost predicate AlwaysRoom(s: State, events: seq<Event>, limits: Ledger.Limits) {
    events != [] ==>
      && AlwaysRoom(s, events[..|events| - 1], limits)
      && RoomAtCommit(Run(s, events[..|events| - 1], limits), events[|events| - 1], limits)
  }

  ghost predicate AlwaysFits(s: State, events: seq<Event>, limits: Ledger.Limits) {
    && Ledger.LoadsFit(Run(s, events, limits).db, limits)
    && (events != [] ==> AlwaysFits(s, events[..|events| - 1], limits))
  }

  lemma ExpiredInsert(db: Ledger.Db, q: Ledger.Request, scope: Ledger.Scope)
    requires Ledger.Insert(db, q).1.None? && q.expiresAt <= db.now
    ensures Ledger.Load(Ledger.Insert(db, q).0.reservations, scope, db.now)
            == Ledger.Load(db.reservations, scope, db.now)
  {
    Ledger.LoadWithRow(db.reservations, q.id, Ledger.Insert(db, q).0.reservations[q.id], scope, db.now);
  }

  lemma OtherStepFits(s: State, e: Event, limits: Ledger.Limits)
    requires Ledger.Consistent(s.db) && Ledger.LoadsFit(s.db, limits) && !Inserts(s, e, limits)
    ensures Ledger.LoadsFit(Next(s, e, limits).db, limits)
  {
    if e.Other? && !e.step.DoCreate? {
      var db' := Ledger.Next(s.db, e.step, limits);
      forall scope
        ensures |Ledger.Load(db'.reservations, scope, db'.now)| <= Ledger.Ceiling(scope, limits)
      {
        UnlockedAddsNoLoad(s.db, e.step, limits, scope);
      }
    } else {
      assert Next(s, e, limits).db == s.db;
    }
  }

  /** From a state within its ceilings, a step stays within them exactly when it is no insert without room. */
  lemma StepFitsExactly(s: State, e: Event, limits: Ledger.Limits)
    requires Ledger.Consistent(s.db) && Ledger.LoadsFit(s.db, limits)
    ensures Ledger.LoadsFit(Next(s, e, limits).db, limits) <==> RoomAtCommit(s, e, limits)
  {
    if !Inserts(s, e, limits) {
      OtherStepFits(s, e, limits);
    } else {
      var q := s.flights[e.f].request;
      assert Next(s, e, limits).db == Ledger.Insert(s.db, q).0;
      if q.expiresAt > s.db.now {
        Ledger.InsertFitsExactly(s.db, q, limits);
      } else {
        forall scope
          ensures Ledger.Load(Ledger.Insert(s.db, q).0.reservations, scope, s.db.now)
                  == Ledger.Load(s.db.reservations, scope, s.db.now)
        {
          ExpiredInsert(s.db, q, scope);
        }
      }
    }
  }

  lemma StepConsistent(s: State, e: Event, limits: Ledger.Limits)
    requires Ledger.Consistent(s.db) && Ledger.Paired(s.db)
    ensures Ledger.Consistent(Next(s, e, limits).db) && Ledger.Paired(Next(s, e, limits).db)
  {
    match e
    case Other(step) => Ledger.StepConsistent(s.db, step, limits);
    case Finish(f) => if Inserts(s, e, limits) { Ledger.InsertConsistent(s.db, s.flights[f].request); }
    case _ =>
  }

  lemma {:induction false} RunConsistent(s: State, events: seq<Event>, limits: Ledger.Limits)
    requires Ledger.Consistent(s.db) && Ledger.Paired(s.db)
    ensures Ledger.Consistent(Run(s, events, limits).db) && Ledger.Paired(Run(s, events, limits).db)
  {
    if events != [] {
      RunConsistent(s, events[..|events| - 1], limits);
      StepConsistent(Run(s, events[..|events| - 1], limits), events[|events| - 1], limits);
    }
  }

  /**
   * Over every interleaving, whatever the clock does: the load stays within every
   * ceiling at every moment if and only if each insert would pass the capacity check
   * once more, with the windows and the counts of the instant at which it commits.
   */
  lemma {:induction false} CeilingsHoldExactly(s: State, events: seq<Event>, limits: Ledger.Limits)
    requires Ledger.Consistent(s.db) && Ledger.Paired(s.db) && Ledger.LoadsFit(s.db, limits)
    ensures AlwaysFits(s, events, limits) <==> AlwaysRoom(s, events, limits)
  {
    if events != [] {
      var front := events[..|events| - 1];
      CeilingsHoldExactly(s, front, limits);
      if AlwaysFits(s, front, limits) {
        RunConsistent(s, front, limits);
        StepFitsExactly(Run(s, front, limits), events[|events| - 1], limits);
      }
    }
  }

  lemma RoomKeepsWithin(s: State, e: Event, limits: Ledger.Limits, scope: Ledger.Scope)
    requires Ledger.Consistent(s.db) && Ledger.Within(s.db, scope, Ledger.Ceiling(scope, limits))
    requires RoomAtCommit(s, e, limits)
    ensures Ledger.Within(Next(s, e, limits).db, scope, Ledger.Ceiling(scope, limits))
  {
    if Inserts(s, e, limits) {
      var q := s.flights[e.f].request;
      assert Next(s, e, limits).db == Ledger.Insert(s.db, q).0;
      if q.expiresAt > s.db.now {
        Ledger.FullMeansFull(s.db, q.user, limits);
        Ledger.InsertKeepsWithin(s.db, q, scope, Ledger.Ceiling(scope, limits));
      } else {
        ExpiredInsert(s.db, q, scope);
        forall period
          ensures Ledger.ConsumedRows(Ledger.Insert(s.db, q).0.reservations, scope, period)
                  == Ledger.ConsumedRows(s.db.reservations, scope, period)
        {}
      }
    } else if e.Other? && !e.step.DoCreate? {
      Ledger.UnlockedKeepsWithin(s.db, e.step, limits, scope, Ledger.Ceiling(scope, limits));
    } else {
      assert Next(s, e, limits).db == s.db;
    }
  }

  /** And while every insert has room, no ceiling is exceeded by what is consumed. */
  lemma {:induction false} RoomKeepsCeilings(
    db: Ledger.Db, events: seq<Event>, limits: Ledger.Limits, scope: Ledger.Scope)
    requires Ledger.Initial(db) && AlwaysRoom(Begin(db), events, limits)
    ensures Ledger.Within(Run(Begin(db), events, limits).db, scope, Ledger.Ceiling(scope, limits))
  {
    Ledger.InitialInv(db, limits);
    if events != [] {
      var front := events[..|events| - 1];
      RoomKeepsCeilings(db, front, limits, scope);
      RunConsistent(Begin(db), front, limits);
      RoomKeepsWithin(Run(Begin(db), front, limits), events[|events| - 1], limits, scope);
    }
  }

  // ----- the atomic transaction is the uninterrupted one -----

  /** What a create in flight does when nothing comes between its statements. */
  function CreateIn(db: Ledger.Db, flight: Flight, limits: Ledger.Limits): Ledger.Db {
    var (q, at, w) := (flight.request, flight.at, flight.windows);
    var full := Ledger.Capacity(limits, w,
                                Ledger.CountAll(db.reservations, w.dayStart, w.dayEnd, at),
                                Ledger.CountUser(db.reservations, q.user, w.dayStart, w.dayEnd, at),
                                Ledger.CountUser(db.reservations, q.user, w.monthStart, w.monthEnd, at));
    if Ledger.Gate(db, q, at).Some? || full.Some? then db else Ledger.Insert(db, q).0
  }

  function Statements(f: int): seq<Event> {
    [Check(f), Lock(f), CountForUser(f), CountForAll(f), Finish(f)]
  }

  /** A create in flight that has taken all its counts at once. */
  function Ready(s: State, f: int): State
    requires f in s.flights
  {
    var (q, at, w) := (s.flights[f].request, s.flights[f].at, s.flights[f].windows);
    var stage := AllCounted(Ledger.CountUser(s.db.reservations, q.user, w.dayStart, w.dayEnd, at),
                            Ledger.CountUser(s.db.reservations, q.user, w.monthStart, w.monthEnd, at),
                            Ledger.CountAll(s.db.reservations, w.dayStart, w.dayEnd, at));
    State(s.db, s.flights[f := Flight(q, at, w, stage)], Some(f))
  }

  function FourStatements(s: State, f: int, limits: Ledger.Limits): State {
    Next(Next(Next(Next(s, Check(f), limits), Lock(f), limits), CountForUser(f), limits), CountForAll(f), limits)
  }

  lemma FourReady(s: State, f: int, limits: Ledger.Limits)
    requires InFlight(s, f, Started) && s.holder.None? && Ledger.Gate(s.db, s.flights[f].request, s.flights[f].at).None?
    ensures FourStatements(s, f, limits) == Ready(s, f)
  {
    var flight := s.flights[f];
    assert Next(s, Check(f), limits) == s.(flights := s.flights[f := flight.(stage := Admitted)]);
    assert Next(Next(s, Check(f), limits), Lock(f), limits) ==
           State(s.db, s.flights[f := flight.(stage := Locked)], Some(f));
  }

  lemma RunStatements(s: State, f: int, limits: Ledger.Limits)
    ensures Run(s, Statements(f), limits) == Next(FourStatements(s, f, limits), Finish(f), limits)
  {
    var s1 := Next(s, Check(f), limits);
    var s2 := Next(s1, Lock(f), limits);
    var s3 := Next(s2, CountForUser(f), limits);
    var s4 := Next(s3, CountForAll(f), limits);
    AllTails(f);
    RunFirst(s, Check(f), Statements(f)[1..], limits);
    RunFirst(s1, Lock(f), Statements(f)[2..], limits);
    RunFirst(s2, CountForUser(f), Statements(f)[3..], limits);
    RunFirst(s3, CountForAll(f), Statements(f)[4..], limits);
    RunFirst(s4, Finish(f), [], limits);
  }

  lemma AllTails(f: int)
    ensures Statements(f) == [Check(f)] + Statements(f)[1..]
    ensures Statements(f)[1..] == [Lock(f)] + Statements(f)[2..]
    ensures Statements(f)[2..] == [CountForUser(f)] + Statements(f)[3..]
    ensures Statements(f)[3..] == [CountForAll(f)] + Statements(f)[4..]
    ensures Statements(f)[4..] == [Finish(f)] + []
  {
  }

  /** The remaining statements of a waiting create, run back to back, decide at the instant the create started. */
  lemma Uninterrupted(s: State, f: int, limits: Ledger.Limits)
    requires InFlight(s, f, Started) && s.holder.None?
    ensures Run(s, Statements(f), limits) ==
            State(CreateIn(s.db, s.flights[f], limits), s.flights - {f}, None)
  {
    RunStatements(s, f, limits);
    if Ledger.Gate(s.db, s.flights[f].request, s.flights[f].at).None? {
      FourReady(s, f, limits);
      assert Ready(s, f).flights - {f} == s.flights - {f};
    } else {
      assert FourStatements(s, f, limits) == End(s, f);
    }
  }

  /** The statements of one create, run back to back, are exactly the atomic transaction. */
  lemma AtomicIsUninterrupted(s: State, f: int, q: Ledger.Request, limits: Ledger.Limits)
    requires f !in s.flights && s.holder.None?
    ensures Run(s, [Start(f, q)] + Statements(f), limits) == s.(db := Ledger.Create(s.db, q, limits).0)
  {
    var started := Next(s, Start(f, q), limits);
    RunFirst(s, Start(f, q), Statements(f), limits);
    Uninterrupted(started, f, limits);
    assert started.flights - {f} == s.flights;
    assert CreateIn(s.db, NewFlight(q, s.db.now), limits) == Ledger.Create(s.db, q, limits).0;
  }
}
