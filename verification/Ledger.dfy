/**
 * The submission-allowance ledger (internal/store/subscriptions.go and
 * internal/store/submissions.go): creating an upload reserves one submission,
 * submitting consumes the reservation, and three ceilings bound what a user may
 * consume per UTC day and month and what all users may consume per UTC day.
 */
module Ledger {
  import opened Prelude
  import Billing
  import Calendar
  import opened Submissions

  datatype UploadStatus = Pending | Uploaded | Used | Expired | Rejected

  datatype Upload = Upload(user: int, expectedSize: int, status: UploadStatus, expiresAt: int)

  /** A consumed reservation carries its `consumed_at` and `submission_id`. */
  datatype ReservationStatus = Reserved | Consumed(at: int, submission: int) | Released

  datatype Reservation = Reservation(
    user: int, entitlement: string, status: ReservationStatus, expiresAt: int, updatedAt: int)

  datatype Challenge = Challenge(published: bool, startsAt: int, endsAt: int)

  datatype Limits = Limits(daily: nat, monthly: nat, globalDaily: nat)

  /**
   * The rows the ledger reads and writes. `accounts` says whether a user's status
   * is 'active'; reservations are keyed by `media_upload_id`, which is unique;
   * `analyses` are the submissions for which an analysis job has been enqueued.
   */
  datatype Db = Db(
    now: int,
    accounts: map<int, bool>,
    challenges: map<int, Challenge>,
    billing: Billing.Tables,
    uploads: map<int, Upload>,
    reservations: map<int, Reservation>,
    submissions: map<int, Submission>,
    analyses: set<int>)

  // ----- what counts against a ceiling -----

  /** The three ceilings: a user's day, a user's month, everybody's day. */
  datatype Scope = UserDay(user: int) | UserMonth(user: int) | GlobalDay

  predicate Covers(scope: Scope, user: int) {
    scope.GlobalDay? || scope.user == user
  }

  function Ceiling(scope: Scope, limits: Limits): nat {
    match scope
    case UserDay(_) => limits.daily
    case UserMonth(_) => limits.monthly
    case GlobalDay => limits.globalDaily
  }

  /** The number of the day or month that holds instant `t`. */
  function PeriodOf(scope: Scope, t: int): int {
    if scope.UserMonth? then Calendar.MonthOf(Calendar.DayOf(t)) else Calendar.DayOf(t)
  }

  predicate ConsumedIn(r: Reservation, scope: Scope, period: int) {
    Covers(scope, r.user) && r.status.Consumed? && PeriodOf(scope, r.status.at) == period
  }

  predicate Live(r: Reservation, scope: Scope, t: int) {
    Covers(scope, r.user) && r.status.Reserved? && r.expiresAt > t
  }

  /** The reservations consumed in one day or month. */
  ghost function ConsumedRows(rs: map<int, Reservation>, scope: Scope, period: int): set<int> {
    set id | id in rs && ConsumedIn(rs[id], scope, period)
  }

  /** The reservations that count at instant `t`: consumed in its period, or live. */
  ghost function Load(rs: map<int, Reservation>, scope: Scope, t: int): set<int> {
    set id | id in rs && (ConsumedIn(rs[id], scope, PeriodOf(scope, t)) || Live(rs[id], scope, t))
  }

  /** The filter of the counting queries, on a half-open window of `consumed_at`. */
  predicate Counts(r: Reservation, start: int, end: int, now: int) {
    match r.status
    case Consumed(at, _) => start <= at < end
    case Reserved => r.expiresAt > now
    case Released => false
  }

  function CountUser(rs: map<int, Reservation>, user: int, start: int, end: int, now: int): nat {
    |set id | id in rs && rs[id].user == user && Counts(rs[id], start, end, now)|
  }

  function CountAll(rs: map<int, Reservation>, start: int, end: int, now: int): nat {
    |set id | id in rs && Counts(rs[id], start, end, now)|
  }

  /** Periods do not go back as time goes on. */
  lemma PeriodMonotone(scope: Scope, t: int, t': int)
    requires t <= t'
    ensures PeriodOf(scope, t) <= PeriodOf(scope, t')
  {
    var n, n' := Calendar.DayOf(t), Calendar.DayOf(t');
    var k, k' := Calendar.MonthOf(n), Calendar.MonthOf(n');
    assert n <= n' by {
      Calendar.MidnightOrder(n, t);
      Calendar.MidnightOrder(n, t');
    }
    if k' + 1 < k {
      Calendar.MonthsIncrease(k' + 1, k);
    }
  }

  /** Two instants of one day are of one month. */
  lemma SameDaySamePeriod(scope: Scope, t: int, t': int)
    requires Calendar.DayOf(t) == Calendar.DayOf(t')
    ensures PeriodOf(scope, t) == PeriodOf(scope, t')
  {}

  /** Windows that fit `now` let through exactly the rows of the load. */
  lemma FittingRow(r: Reservation, now: int, w: Calendar.Windows)
    requires Calendar.Fit(w, now)
    ensures Counts(r, w.dayStart, w.dayEnd, now) <==>
            ConsumedIn(r, GlobalDay, PeriodOf(GlobalDay, now)) || Live(r, GlobalDay, now)
    ensures Counts(r, w.monthStart, w.monthEnd, now) <==>
            ConsumedIn(r, UserMonth(r.user), PeriodOf(UserMonth(r.user), now)) || Live(r, UserMonth(r.user), now)
  {
    if r.status.Consumed? {
      assert w.dayStart <= r.status.at < w.dayEnd <==> Calendar.DayOf(r.status.at) == Calendar.DayOf(now);
    }
  }

  ghost predicate LetsThrough(rs: map<int, Reservation>, scope: Scope, start: int, end: int, now: int) {
    forall id :: id in rs && Covers(scope, rs[id].user) ==>
      (Counts(rs[id], start, end, now) <==>
       ConsumedIn(rs[id], scope, PeriodOf(scope, now)) || Live(rs[id], scope, now))
  }

  lemma UserQuery(rs: map<int, Reservation>, scope: Scope, start: int, end: int, now: int)
    requires !scope.GlobalDay? && LetsThrough(rs, scope, start, end, now)
    ensures CountUser(rs, scope.user, start, end, now) == |Load(rs, scope, now)|
  {
    var counted := set id | id in rs && rs[id].user == scope.user && Counts(rs[id], start, end, now);
    forall id
      ensures id in counted <==> id in Load(rs, scope, now)
    {
      if id in rs && Covers(scope, rs[id].user) {
        assert Counts(rs[id], start, end, now) <==>
          ConsumedIn(rs[id], scope, PeriodOf(scope, now)) || Live(rs[id], scope, now);
      }
    }
    assert counted == Load(rs, scope, now);
  }

  lemma GlobalQuery(rs: map<int, Reservation>, start: int, end: int, now: int)
    requires LetsThrough(rs, GlobalDay, start, end, now)
    ensures CountAll(rs, start, end, now) == |Load(rs, GlobalDay, now)|
  {
    var counted := set id | id in rs && Counts(rs[id], start, end, now);
    forall id
      ensures id in counted <==> id in Load(rs, GlobalDay, now)
    {
      if id in rs {
        assert Counts(rs[id], start, end, now) <==>
          ConsumedIn(rs[id], GlobalDay, PeriodOf(GlobalDay, now)) || Live(rs[id], GlobalDay, now);
      }
    }
    assert counted == Load(rs, GlobalDay, now);
  }

  lemma FittingQueries(rs: map<int, Reservation>, user: int, now: int, w: Calendar.Windows)
    requires Calendar.Fit(w, now)
    ensures CountUser(rs, user, w.dayStart, w.dayEnd, now) == |Load(rs, UserDay(user), now)|
    ensures CountUser(rs, user, w.monthStart, w.monthEnd, now) == |Load(rs, UserMonth(user), now)|
    ensures CountAll(rs, w.dayStart, w.dayEnd, now) == |Load(rs, GlobalDay, now)|
  {
    forall id | id in rs { FittingRow(rs[id], now, w); }
    UserQuery(rs, UserDay(user), w.dayStart, w.dayEnd, now);
    UserQuery(rs, UserMonth(user), w.monthStart, w.monthEnd, now);
    GlobalQuery(rs, w.dayStart, w.dayEnd, now);
  }

  /** The counting queries, whose windows come from `usageWindows`, measure the load. */
  lemma {:induction false} QueriesMeasureLoad(rs: map<int, Reservation>, user: int, now: int)
    ensures var w := Calendar.UsageWindows(now);
            && CountUser(rs, user, w.dayStart, w.dayEnd, now) == |Load(rs, UserDay(user), now)|
            && CountUser(rs, user, w.monthStart, w.monthEnd, now) == |Load(rs, UserMonth(user), now)|
            && CountAll(rs, w.dayStart, w.dayEnd, now) == |Load(rs, GlobalDay, now)|
  {
    Calendar.WindowsFit(now);
    FittingQueries(rs, user, now, Calendar.UsageWindows(now));
  }

  // ----- the transactions -----

  /** The parameters of an upload request; `id` is the generated row ID. */
  datatype Request = Request(id: int, user: int, entitlement: string, size: int, expiresAt: int)

  predicate Entitled(t: Billing.Tables, k: Billing.Key, now: int) {
    && k in t.entitlements && t.entitlements[k].active
    && (t.entitlements[k].validUntil.None? || t.entitlements[k].validUntil.value > now)
  }

  /** The account and entitlement checks that precede the capacity check. */
  function Gate(db: Db, q: Request, now: int): Option<Error> {
    if q.user !in db.accounts then Some(NotFound)
    else if !db.accounts[q.user] then Some(Forbidden)
    else if !Entitled(db.billing, (q.user, q.entitlement), now) then Some(SubscriptionRequired)
    else None
  }

  /** The capacity check, in the order of the code: platform, day, month. */
  function Capacity(limits: Limits, w: Calendar.Windows, global: nat, daily: nat, monthly: nat): Option<Error> {
    if global >= limits.globalDaily then Some(UsageLimit(GlobalDaily, limits.globalDaily, w.dayEnd))
    else if daily >= limits.daily then Some(UsageLimit(Daily, limits.daily, w.dayEnd))
    else if monthly >= limits.monthly then Some(UsageLimit(Monthly, limits.monthly, w.monthEnd))
    else None
  }

  /** The rows written once the checks have passed; the size constraint and the key can still fail. */
  function Insert(db: Db, q: Request): (Db, Option<Error>) {
    if q.size <= 0 then (db, Some(Invalid))
    else if q.id in db.uploads || q.id in db.reservations then (db, Some(Conflict))
    else
      (db.(uploads := db.uploads[q.id := Upload(q.user, q.size, Pending, q.expiresAt)],
           reservations := db.reservations[q.id := Reservation(q.user, q.entitlement, Reserved, q.expiresAt, db.now)]),
       None)
  }

  /** The capacity check on the counts of the current instant. */
  function Full(db: Db, user: int, limits: Limits): Option<Error> {
    var w := Calendar.UsageWindows(db.now);
    Capacity(limits, w,
             CountAll(db.reservations, w.dayStart, w.dayEnd, db.now),
             CountUser(db.reservations, user, w.dayStart, w.dayEnd, db.now),
             CountUser(db.reservations, user, w.monthStart, w.monthEnd, db.now))
  }

  function Create(db: Db, q: Request, limits: Limits): (Db, Option<Error>) {
    if Gate(db, q, db.now).Some? then (db, Gate(db, q, db.now))
    else if Full(db, q.user, limits).Some? then (db, Full(db, q.user, limits))
    else Insert(db, q)
  }

  /** Tests the upload's own expiry, and extends the reservation's. */
  function Complete(db: Db, id: int, user: int, size: int, expiresAt: int): (Db, Option<Error>) {
    if !(id in db.uploads && db.uploads[id].user == user && db.uploads[id].status == Pending
         && db.uploads[id].expiresAt > db.now && db.uploads[id].expectedSize == size) then
      (db, Some(NotFound))
    else if !(id in db.reservations && db.reservations[id].user == user && db.reservations[id].status.Reserved?) then
      (db, Some(Invalid))
    else
      (db.(uploads := db.uploads[id := db.uploads[id].(status := Uploaded)],
           reservations := db.reservations[id := db.reservations[id].(expiresAt := expiresAt, updatedAt := db.now)]),
       None)
  }

  function Release(db: Db, id: int, user: int): Db {
    db.(reservations :=
          if id in db.reservations && db.reservations[id].user == user && db.reservations[id].status.Reserved?
          then db.reservations[id := db.reservations[id].(status := Released, updatedAt := db.now)]
          else db.reservations,
        uploads :=
          if id in db.uploads && db.uploads[id].user == user && db.uploads[id].status == Pending
          then db.uploads[id := db.uploads[id].(status := Expired)]
          else db.uploads)
  }

  datatype Entry = Entry(submission: int, challenge: int, user: int, upload: int)

  predicate Open(c: Challenge, now: int) {
    c.published && c.startsAt <= now < c.endsAt
  }

  /** The unique constraints on a submission's upload and on its challenge and user. */
  predicate Clashes(s: Submission, e: Entry) {
    s.media == e.upload || (s.challenge == e.challenge && s.user == e.user)
  }

  function SubmitError(db: Db, e: Entry): Option<Error> {
    if e.challenge !in db.challenges then Some(NotFound)
    else if !Open(db.challenges[e.challenge], db.now) then Some(Invalid)
    else if !(e.upload in db.uploads && db.uploads[e.upload].user == e.user) then Some(NotFound)
    else if db.uploads[e.upload].status != Uploaded then Some(Invalid)
    else if !(&& e.upload in db.reservations && db.reservations[e.upload].user == e.user
              && db.reservations[e.upload].status.Reserved? && db.reservations[e.upload].expiresAt > db.now
              && (e.user, db.reservations[e.upload].entitlement) in db.billing.entitlements) then Some(Invalid)
    else if !Entitled(db.billing, (e.user, db.reservations[e.upload].entitlement), db.now) then
      Some(SubscriptionRequired)
    else if e.submission in db.submissions
            || (exists s :: s in db.submissions && Clashes(db.submissions[s], e))
    then Some(Conflict)
    else None
  }

  function Submit(db: Db, e: Entry): (Db, Option<Error>) {
    var refused := SubmitError(db, e);
    if refused.Some? then (db, refused)
    else
      (db.(submissions := db.submissions[e.submission := NewSubmission(e.challenge, e.user, e.upload)],
           analyses := db.analyses + {e.submission},
           uploads := db.uploads[e.upload := db.uploads[e.upload].(status := Used)],
           reservations := db.reservations[e.upload :=
             db.reservations[e.upload].(status := Consumed(db.now, e.submission), updatedAt := db.now)]),
       None)
  }

  /** The rows that `CleanupDatabase` deletes: released or expired, and untouched for 30 days. */
  predicate Deletable(r: Reservation, now: int) {
    && (r.status.Released? || (r.status.Reserved? && r.expiresAt < now))
    && r.updatedAt < now - RETENTION
  }

  function Cleanup(db: Db): Db {
    db.(reservations :=
          map id | id in db.reservations && !Deletable(db.reservations[id], db.now) :: db.reservations[id])
  }

  /** `CompleteCleanupObject` on an upload. */
  function ExpireUpload(db: Db, id: int): Db {
    if id in db.uploads && db.uploads[id].status in {Pending, Expired, Rejected}
    then db.(uploads := db.uploads[id := db.uploads[id].(status := Expired)])
    else db
  }

  /** `RejectMediaUpload`. */
  function RejectUpload(db: Db, id: int): Db {
    if id in db.uploads
    then db.(uploads := db.uploads[id := db.uploads[id].(status := Rejected)])
    else db
  }

  // ----- the store -----

  class Store {
    var now: int
    var accounts: map<int, bool>
    var challenges: map<int, Challenge>
    var billing: Billing.Tables
    var uploads: map<int, Upload>
    var reservations: map<int, Reservation>
    var submissions: map<int, Submission>
    var analyses: set<int>

    function Contents(): Db
      reads this
    {
      Db(now, accounts, challenges, billing, uploads, reservations, submissions, analyses)
    }

    constructor (now: int, accounts: map<int, bool>, challenges: map<int, Challenge>)
      ensures Contents() == Db(now, accounts, challenges, Billing.Tables(map[], map[], {}), map[], map[], map[], {})
    {
      this.now, this.accounts, this.challenges := now, accounts, challenges;
      billing := Billing.Tables(map[], map[], {});
      uploads, reservations, submissions, analyses := map[], map[], map[], {};
    }

    method CreatePaidMediaUpload(q: Request, limits: Limits) returns (error: Option<Error>)
      modifies this`uploads, this`reservations
      ensures (Contents(), error) == Create(old(Contents()), q, limits)
    {
      if q.user !in accounts {
        return Some(NotFound);
      }
      if !accounts[q.user] {
        return Some(Forbidden);
      }
      var k := (q.user, q.entitlement);
      if k !in billing.entitlements {
        return Some(SubscriptionRequired);
      }
      var entitlement := billing.entitlements[k];
      if !entitlement.active || (entitlement.validUntil.Some? && entitlement.validUntil.value <= now) {
        return Some(SubscriptionRequired);
      }
      var w := Calendar.UsageWindows(now);
      var dailyUsed := CountUser(reservations, q.user, w.dayStart, w.dayEnd, now);
      var monthlyUsed := CountUser(reservations, q.user, w.monthStart, w.monthEnd, now);
      var globalDailyUsed := CountAll(reservations, w.dayStart, w.dayEnd, now);
      if globalDailyUsed >= limits.globalDaily {
        return Some(UsageLimit(GlobalDaily, limits.globalDaily, w.dayEnd));
      }
      if dailyUsed >= limits.daily {
        return Some(UsageLimit(Daily, limits.daily, w.dayEnd));
      }
      if monthlyUsed >= limits.monthly {
        return Some(UsageLimit(Monthly, limits.monthly, w.monthEnd));
      }
      if q.size <= 0 {
        return Some(Invalid);
      }
      if q.id in uploads || q.id in reservations {
        return Some(Conflict);
      }
      uploads := uploads[q.id := Upload(q.user, q.size, Pending, q.expiresAt)];
      reservations := reservations[q.id := Reservation(q.user, q.entitlement, Reserved, q.expiresAt, now)];
      return None;
    }

    method CompletePaidMediaUpload(id: int, user: int, size: int, expiresAt: int) returns (error: Option<Error>)
      modifies this`uploads, this`reservations
      ensures (Contents(), error) == Complete(old(Contents()), id, user, size, expiresAt)
    {
      var before := uploads;
      if id !in uploads {
        return Some(NotFound);
      }
      var upload := uploads[id];
      if upload.user != user || upload.status != Pending || upload.expiresAt <= now || upload.expectedSize != size {
        return Some(NotFound);
      }
      uploads := uploads[id := upload.(status := Uploaded)];
      if id !in reservations || reservations[id].user != user || !reservations[id].status.Reserved? {
        uploads := before;  // rollback
        return Some(Invalid);
      }
      reservations := reservations[id := reservations[id].(expiresAt := expiresAt, updatedAt := now)];
      return None;
    }

    method ReleaseUploadReservation(id: int, user: int)
      modifies this`uploads, this`reservations
      ensures Contents() == Release(old(Contents()), id, user)
    {
      if id in reservations && reservations[id].user == user && reservations[id].status.Reserved? {
        reservations := reservations[id := reservations[id].(status := Released, updatedAt := now)];
      }
      if id in uploads && uploads[id].user == user && uploads[id].status == Pending {
        uploads := uploads[id := uploads[id].(status := Expired)];
      }
    }

    method CreateSubmission(e: Entry) returns (error: Option<Error>)
      modifies this`uploads, this`reservations, this`submissions, this`analyses
      ensures (Contents(), error) == Submit(old(Contents()), e)
    {
      if e.challenge !in challenges {
        return Some(NotFound);
      }
      if !Open(challenges[e.challenge], now) {
        return Some(Invalid);
      }
      if e.upload !in uploads || uploads[e.upload].user != e.user {
        return Some(NotFound);
      }
      if uploads[e.upload].status != Uploaded {
        return Some(Invalid);
      }
      if e.upload !in reservations {
        return Some(Invalid);
      }
      var reservation := reservations[e.upload];
      var k := (e.user, reservation.entitlement);
      if reservation.user != e.user || !reservation.status.Reserved? || reservation.expiresAt <= now
         || k !in billing.entitlements {
        return Some(Invalid);
      }
      if !Entitled(billing, k, now) {
        return Some(SubscriptionRequired);
      }
      if e.submission in submissions {
        return Some(Conflict);
      }
      if exists s :: s in submissions && Clashes(submissions[s], e) {
        return Some(Conflict);
      }
      submissions := submissions[e.submission := NewSubmission(e.challenge, e.user, e.upload)];
      uploads := uploads[e.upload := uploads[e.upload].(status := Used)];
      reservations := reservations[e.upload := reservation.(status := Consumed(now, e.submission), updatedAt := now)];
      analyses := analyses + {e.submission};
      return None;
    }

    /**
     * A reservation is kept, unchanged, unless it no longer counts against anything and
     * has been left alone for the retention time.
     */
    method CleanupDatabase()
      modifies this`reservations
      ensures forall id :: id in reservations <==>
                id in old(reservations)
                && (|| old(reservations)[id].updatedAt >= now - RETENTION
                    || old(reservations)[id].status.Consumed?
                    || (old(reservations)[id].status.Reserved? && now <= old(reservations)[id].expiresAt))
      ensures forall id :: id in reservations ==> reservations[id] == old(reservations)[id]
      ensures Contents() == Cleanup(old(Contents()))
    {
      reservations := map id | id in reservations && !Deletable(reservations[id], now) :: reservations[id];
    }

    /** Reads the `subscriptions` table, where the gate reads `entitlements`. */
    method GetSubscriptionOverview(user: int, entitlement: string, limits: Limits) returns (o: Overview)
      ensures o == OverviewOf(Contents(), user, entitlement, limits)
      ensures o.dailyUsed == |Load(reservations, UserDay(user), now)|
      ensures o.monthlyUsed == |Load(reservations, UserMonth(user), now)|
    {
      var subscription := None;
      var pro := false;
      var k := (user, entitlement);
      if k in billing.subscriptions {
        var row := billing.subscriptions[k];
        if row.product != "" || row.status != Billing.Inactive {
          pro := true;
        }
        if row.periodEnd.Some? && row.periodEnd.value <= now {
          row := row.(active := false, willRenew := false, status := Billing.Expired);
        }
        subscription := Some(row);
      }
      var w := Calendar.UsageWindows(now);
      var dailyUsed := CountUser(reservations, user, w.dayStart, w.dayEnd, now);
      var monthlyUsed := CountUser(reservations, user, w.monthStart, w.monthEnd, now);
      QueriesMeasureLoad(reservations, user, now);
      o := Overview(subscription, pro, limits.daily, dailyUsed, Max(0, limits.daily - dailyUsed), w.dayEnd,
                    limits.monthly, monthlyUsed, Max(0, limits.monthly - monthlyUsed), w.monthEnd);
    }
  }

  /** `None` stands for the subscription shown to a user without a row: inactive, of tier 'none'. */
  datatype Overview = Overview(
    subscription: Option<Billing.SubscriptionRow>, pro: bool,
    dailyLimit: int, dailyUsed: int, dailyRemaining: int, dailyResetsAt: int,
    monthlyLimit: int, monthlyUsed: int, monthlyRemaining: int, monthlyResetsAt: int)

  predicate ShownActive(o: Overview) { o.subscription.Some? && o.subscription.value.active }

  /** A period that is over shows as expired. */
  function Shown(row: Billing.SubscriptionRow, now: int): Billing.SubscriptionRow {
    if row.periodEnd.Some? && row.periodEnd.value <= now
    then row.(active := false, willRenew := false, status := Billing.Expired) else row
  }

  function OverviewOf(db: Db, user: int, entitlement: string, limits: Limits): Overview {
    var k := (user, entitlement);
    var w := Calendar.UsageWindows(db.now);
    var daily := CountUser(db.reservations, user, w.dayStart, w.dayEnd, db.now);
    var monthly := CountUser(db.reservations, user, w.monthStart, w.monthEnd, db.now);
    Overview(
      if k in db.billing.subscriptions then Some(Shown(db.billing.subscriptions[k], db.now)) else None,
      k in db.billing.subscriptions
      && (db.billing.subscriptions[k].product != "" || db.billing.subscriptions[k].status != Billing.Inactive),
      limits.daily, daily, Max(0, limits.daily - daily), w.dayEnd,
      limits.monthly, monthly, Max(0, limits.monthly - monthly), w.monthEnd)
  }

  // ----- runs -----

  datatype Step =
    | Tick(elapsed: nat)
    | SetAccount(user: int, active: bool)
    | SetChallenge(challenge: int, row: Challenge)
    | Bill(op: Billing.Operation)
    | DoCreate(request: Request)
    | DoComplete(id: int, user: int, size: int, expiresAt: int)
    | DoRelease(id: int, user: int)
    | DoSubmit(entry: Entry)
    | DoCleanup
    | DoExpire(id: int)
    | DoReject(id: int)

  function Next(db: Db, step: Step, limits: Limits): Db {
    match step
    case Tick(elapsed) => db.(now := db.now + elapsed)
    case SetAccount(user, active) => db.(accounts := db.accounts[user := active])
    case SetChallenge(challenge, row) => db.(challenges := db.challenges[challenge := row])
    case Bill(op) => db.(billing := Billing.Apply(db.billing, op))
    case DoCreate(q) => Create(db, q, limits).0
    case DoComplete(id, user, size, expiresAt) => Complete(db, id, user, size, expiresAt).0
    case DoRelease(id, user) => Release(db, id, user)
    case DoSubmit(e) => Submit(db, e).0
    case DoCleanup => Cleanup(db)
    case DoExpire(id) => ExpireUpload(db, id)
    case DoReject(id) => RejectUpload(db, id)
  }

  function Run(db: Db, steps: seq<Step>, limits: Limits): Db {
    if steps == [] then db else Next(Run(db, steps[..|steps| - 1], limits), steps[|steps| - 1], limits)
  }

  // ----- the invariant -----

  /** No consumption lies in the future, and a pending upload expires when its reservation does. */
  ghost predicate Consistent(db: Db) {
    && (forall id :: id in db.reservations && db.reservations[id].status.Consumed? ==>
          db.reservations[id].status.at <= db.now)
    && (forall id :: id in db.reservations ==>
          id in db.uploads && db.uploads[id].user == db.reservations[id].user)
    && (forall id :: id in db.reservations && db.reservations[id].status.Reserved?
                     && db.uploads[id].status == Pending ==>
          db.uploads[id].expiresAt == db.reservations[id].expiresAt)
  }

  /** Consumed reservations and submissions point at each other, and every submission has had its analysis job. */
  ghost predicate Paired(db: Db) {
    && db.analyses == db.submissions.Keys
    && (forall id :: id in db.reservations && db.reservations[id].status.Consumed? ==>
          && db.reservations[id].status.submission in db.submissions
          && db.submissions[db.reservations[id].status.submission].media == id
          && db.submissions[db.reservations[id].status.submission].user == db.reservations[id].user)
    && (forall s :: s in db.submissions ==>
          && db.submissions[s].media in db.reservations
          && db.reservations[db.submissions[s].media].status.Consumed?
          && db.reservations[db.submissions[s].media].status.submission == s)
  }

  /** At most `bound` rows are charged to a scope, now and in any period. */
  ghost predicate Within(db: Db, scope: Scope, bound: int) {
    && |Load(db.reservations, scope, db.now)| <= bound
    && (forall period :: |ConsumedRows(db.reservations, scope, period)| <= bound)
  }

  ghost predicate Bounded(db: Db, limits: Limits) {
    forall scope :: Within(db, scope, Ceiling(scope, limits))
  }

  ghost predicate Inv(db: Db, limits: Limits) {
    Consistent(db) && Paired(db) && Bounded(db, limits)
  }

  /** A step other than a create. */
  predicate Unlocked(step: Step) { !step.DoCreate? }

  /** Every step keeps the row-level invariants. */
  lemma StepConsistent(db: Db, step: Step, limits: Limits)
    requires Consistent(db) && Paired(db)
    ensures Consistent(Next(db, step, limits)) && Paired(Next(db, step, limits))
  {
    match step
    case DoCreate(q) => CreateConsistent(db, q, limits);
    case DoComplete(id, user, size, expiresAt) => CompleteConsistent(db, id, user, size, expiresAt);
    case DoSubmit(e) => SubmitConsistent(db, e);
    case DoRelease(id, user) => ReleaseConsistent(db, id, user);
    case DoCleanup => CleanupConsistent(db);
    case _ =>
  }

  lemma ReleaseConsistent(db: Db, id: int, user: int)
    requires Consistent(db) && Paired(db)
    ensures Consistent(Release(db, id, user)) && Paired(Release(db, id, user))
  {}

  lemma CleanupConsistent(db: Db)
    requires Consistent(db) && Paired(db)
    ensures Consistent(Cleanup(db)) && Paired(Cleanup(db))
  {}

  lemma InsertConsistent(db: Db, q: Request)
    requires Consistent(db) && Paired(db)
    ensures Consistent(Insert(db, q).0) && Paired(Insert(db, q).0)
  {}

  lemma CreateConsistent(db: Db, q: Request, limits: Limits)
    requires Consistent(db) && Paired(db)
    ensures Consistent(Create(db, q, limits).0) && Paired(Create(db, q, limits).0)
  {
    CreateInserts(db, q, limits);
    InsertConsistent(db, q);
  }

  lemma CompleteConsistent(db: Db, id: int, user: int, size: int, expiresAt: int)
    requires Consistent(db) && Paired(db)
    ensures var db' := Complete(db, id, user, size, expiresAt).0;
            Consistent(db') && Paired(db')
  {}

  lemma SubmitConsistent(db: Db, e: Entry)
    requires Consistent(db) && Paired(db)
    ensures Consistent(Submit(db, e).0) && Paired(Submit(db, e).0)
  {
    if SubmitError(db, e).None? {
      var db' := Submit(db, e).0;
      forall s | s in db'.submissions
        ensures && db'.submissions[s].media in db'.reservations
                && db'.reservations[db'.submissions[s].media].status.Consumed?
                && db'.reservations[db'.submissions[s].media].status.submission == s
      {
        if s != e.submission {
          assert s in db.submissions && db.submissions[s].media != e.upload;
        }
      }
    }
  }

  lemma LoadedBefore(db: Db, step: Step, limits: Limits, scope: Scope, id: int)
    requires Consistent(db) && Unlocked(step)
    requires var db' := Next(db, step, limits);
             && db.now <= db'.now && PeriodOf(scope, db.now) <= PeriodOf(scope, db'.now)
             && id in Load(db'.reservations, scope, db'.now)
    ensures id in Load(db.reservations, scope, db.now)
  {
    match step
    case Tick(elapsed) => TickLoad(db, elapsed, scope, id);
    case DoComplete(i, user, size, expiresAt) => CompleteLoad(db, i, user, size, expiresAt, scope, id);
    case DoRelease(i, user) => ReleaseLoad(db, i, user, scope, id);
    case DoSubmit(e) => SubmitLoad(db, e, scope, id);
    case _ =>
  }

  lemma ReleaseLoad(db: Db, i: int, user: int, scope: Scope, id: int)
    requires id in Load(Release(db, i, user).reservations, scope, db.now)
    ensures id in Load(db.reservations, scope, db.now)
  {
  }

  lemma SubmitLoad(db: Db, e: Entry, scope: Scope, id: int)
    requires id in Load(Submit(db, e).0.reservations, scope, db.now)
    ensures id in Load(db.reservations, scope, db.now)
  {
  }

  lemma TickLoad(db: Db, elapsed: nat, scope: Scope, id: int)
    requires Consistent(db) && PeriodOf(scope, db.now) <= PeriodOf(scope, db.now + elapsed)
    requires id in Load(db.reservations, scope, db.now + elapsed)
    ensures id in Load(db.reservations, scope, db.now)
  {
    if db.reservations[id].status.Consumed? {
      PeriodMonotone(scope, db.reservations[id].status.at, db.now);
    }
  }

  lemma CompleteLoad(db: Db, i: int, user: int, size: int, expiresAt: int, scope: Scope, id: int)
    requires Consistent(db)
    requires id in Load(Complete(db, i, user, size, expiresAt).0.reservations, scope, db.now)
    ensures id in Load(db.reservations, scope, db.now)
  {
  }

  /**
   * The heart of the ledger: no step but a create adds a reservation to the load of
   * any ceiling; completing, submitting and the passing of time only keep or drop them.
   */
  lemma OnlyCreateAddsLoad(db: Db, step: Step, limits: Limits, scope: Scope)
    requires Consistent(db) && Unlocked(step)
    ensures var db' := Next(db, step, limits);
            Load(db'.reservations, scope, db'.now) <= Load(db.reservations, scope, db.now)
  {
    var db' := Next(db, step, limits);
    ClockForward(db, step, limits);
    PeriodMonotone(scope, db.now, db'.now);
    forall id | id in Load(db'.reservations, scope, db'.now)
      ensures id in Load(db.reservations, scope, db.now)
    {
      LoadedBefore(db, step, limits, scope, id);
    }
  }

  lemma ClockForward(db: Db, step: Step, limits: Limits)
    ensures Next(db, step, limits).now == db.now + if step.Tick? then step.elapsed else 0
  {
  }

  /** A row that a step consumes was live just before, in the very period it is consumed in; none is lost. */
  lemma {:induction false} ConsumptionComesFromLoad(db: Db, step: Step, limits: Limits, scope: Scope, period: int)
    requires Consistent(db)
    ensures var (before, after) :=
              (ConsumedRows(db.reservations, scope, period),
               ConsumedRows(Next(db, step, limits).reservations, scope, period));
            && before <= after
            && (forall id :: id in after && id !in before ==>
                  && id in db.reservations && Live(db.reservations[id], scope, db.now)
                  && period == PeriodOf(scope, db.now))
  {
    var before, after :=
      ConsumedRows(db.reservations, scope, period), ConsumedRows(Next(db, step, limits).reservations, scope, period);
    forall id | id in before
      ensures id in after
    {
      StepKeepsConsumed(db, step, limits, id);
    }
    forall id | id in after && id !in before
      ensures id in db.reservations && Live(db.reservations[id], scope, db.now) && period == PeriodOf(scope, db.now)
    {
      NewlyConsumed(db, step, limits, id);
    }
  }

  lemma NewlyConsumed(db: Db, step: Step, limits: Limits, id: int)
    requires id in Next(db, step, limits).reservations && Next(db, step, limits).reservations[id].status.Consumed?
    requires id in db.reservations ==> db.reservations[id] != Next(db, step, limits).reservations[id]
    ensures id in db.reservations && db.reservations[id].status.Reserved? && db.reservations[id].expiresAt > db.now
    ensures Next(db, step, limits).reservations[id].user == db.reservations[id].user
    ensures Next(db, step, limits).reservations[id].status.at == db.now
  {
    match step
    case DoCreate(q) => CreateAddsReserved(db, q, limits, id);
    case DoSubmit(e) => assert id == e.upload;
    case _ =>
  }

  lemma CreateAddsReserved(db: Db, q: Request, limits: Limits, id: int)
    requires id in Create(db, q, limits).0.reservations
    ensures (id in db.reservations && Create(db, q, limits).0.reservations[id] == db.reservations[id])
            || Create(db, q, limits).0.reservations[id].status.Reserved?
  {
    assert Create(db, q, limits).0 in {db, Insert(db, q).0};
  }

  lemma StepKeepsConsumed(db: Db, step: Step, limits: Limits, id: int)
    requires id in db.reservations && db.reservations[id].status.Consumed?
    ensures id in Next(db, step, limits).reservations
    ensures Next(db, step, limits).reservations[id] == db.reservations[id]
  {
    if step.DoCreate? {
      assert Create(db, step.request, limits).0 in {db, Insert(db, step.request).0};
    }
  }

  /** A step other than a create keeps every bound on a scope. */
  lemma UnlockedKeepsWithin(db: Db, step: Step, limits: Limits, scope: Scope, bound: int)
    requires Consistent(db) && Unlocked(step) && Within(db, scope, bound)
    ensures Within(Next(db, step, limits), scope, bound)
  {
    var db' := Next(db, step, limits);
    OnlyCreateAddsLoad(db, step, limits, scope);
    SubsetSize(Load(db'.reservations, scope, db'.now), Load(db.reservations, scope, db.now));
    forall period
      ensures |ConsumedRows(db'.reservations, scope, period)| <= bound
    {
      ConsumptionComesFromLoad(db, step, limits, scope, period);
      var before, after := ConsumedRows(db.reservations, scope, period), ConsumedRows(db'.reservations, scope, period);
      if period == PeriodOf(scope, db.now) {
        assert after <= Load(db.reservations, scope, db.now);
        SubsetSize(after, Load(db.reservations, scope, db.now));
      } else {
        assert after == before;
      }
    }
  }

  lemma InsertLoad(db: Db, q: Request, scope: Scope)
    ensures var db' := Insert(db, q).0;
            && |Load(db'.reservations, scope, db.now)| <= |Load(db.reservations, scope, db.now)| + 1
            && (!Covers(scope, q.user) ==>
                  |Load(db'.reservations, scope, db.now)| <= |Load(db.reservations, scope, db.now)|)
  {
    var db' := Insert(db, q).0;
    var before, after := Load(db.reservations, scope, db.now), Load(db'.reservations, scope, db.now);
    assert after <= before + {q.id};
    SubsetSize(after, before + {q.id});
    if !Covers(scope, q.user) {
      assert after <= before;
      SubsetSize(after, before);
    }
  }

  /** An insert keeps every bound that leaves room for it, or that does not concern its user. */
  lemma InsertKeepsWithin(db: Db, q: Request, scope: Scope, bound: int)
    requires Within(db, scope, bound)
    requires Covers(scope, q.user) ==> |Load(db.reservations, scope, db.now)| < bound
    ensures Within(Insert(db, q).0, scope, bound)
  {
    var db' := Insert(db, q).0;
    InsertLoad(db, q, scope);
    forall period
      ensures |ConsumedRows(db'.reservations, scope, period)| <= bound
    {
      assert ConsumedRows(db'.reservations, scope, period) == ConsumedRows(db.reservations, scope, period);
    }
  }

  /** A create keeps every ceiling, also those of other users. */
  lemma CreateBelowCeiling(db: Db, q: Request, limits: Limits, scope: Scope)
    requires Within(db, scope, Ceiling(scope, limits))
    ensures Within(Create(db, q, limits).0, scope, Ceiling(scope, limits))
  {
    CreateInserts(db, q, limits);
    if Create(db, q, limits).1.None? {
      FullMeansFull(db, q.user, limits);
      InsertKeepsWithin(db, q, scope, Ceiling(scope, limits));
    } else {
      assert Create(db, q, limits).0 == db;
    }
  }

  /** A create that succeeds has passed its checks and inserted its rows. */
  lemma CreateInserts(db: Db, q: Request, limits: Limits)
    ensures Create(db, q, limits).1.None? ==>
              && Create(db, q, limits) == Insert(db, q) && Full(db, q.user, limits).None?
              && Entitled(db.billing, (q.user, q.entitlement), db.now)
    ensures Create(db, q, limits).1.Some? ==> Create(db, q, limits).0 == db
  {
  }

  ghost predicate HasRoom(db: Db, scope: Scope, limits: Limits) {
    |Load(db.reservations, scope, db.now)| < Ceiling(scope, limits)
  }

  lemma CapacityMeansRoom(db: Db, user: int, limits: Limits, w: Calendar.Windows)
    requires Calendar.Fit(w, db.now)
    ensures Capacity(limits, w,
                     CountAll(db.reservations, w.dayStart, w.dayEnd, db.now),
                     CountUser(db.reservations, user, w.dayStart, w.dayEnd, db.now),
                     CountUser(db.reservations, user, w.monthStart, w.monthEnd, db.now)).None? <==>
            && HasRoom(db, UserDay(user), limits) && HasRoom(db, UserMonth(user), limits)
            && HasRoom(db, GlobalDay, limits)
  {
    FittingQueries(db.reservations, user, db.now, w);
  }

  /** The capacity check of the current instant: there is room under each ceiling that covers the user. */
  lemma FullMeansFull(db: Db, user: int, limits: Limits)
    ensures Full(db, user, limits).None? <==> forall scope :: Covers(scope, user) ==> HasRoom(db, scope, limits)
  {
    Calendar.WindowsFit(db.now);
    CapacityMeansRoom(db, user, limits, Calendar.UsageWindows(db.now));
    assert Full(db, user, limits).None? ==> forall scope :: Covers(scope, user) ==> HasRoom(db, scope, limits) by {
      forall scope | Full(db, user, limits).None? && Covers(scope, user)
        ensures HasRoom(db, scope, limits)
      {
        assert scope == UserDay(user) || scope == UserMonth(user) || scope == GlobalDay;
      }
    }
    assert Covers(UserDay(user), user) && Covers(UserMonth(user), user) && Covers(GlobalDay, user);
  }

  /** The load of every scope is within its ceiling. */
  ghost predicate LoadsFit(db: Db, limits: Limits) {
    forall scope :: |Load(db.reservations, scope, db.now)| <= Ceiling(scope, limits)
  }

  /**
   * Exactly when an accepted insert of a reservation that is still to expire keeps the
   * ceilings: when the capacity check, with the windows of this very instant, would pass.
   */
  lemma InsertFitsExactly(db: Db, q: Request, limits: Limits)
    requires LoadsFit(db, limits) && Insert(db, q).1.None? && q.expiresAt > db.now
    ensures LoadsFit(Insert(db, q).0, limits) <==> Full(db, q.user, limits).None?
  {
    var rs, row := db.reservations, Insert(db, q).0.reservations[q.id];
    assert Insert(db, q).0.reservations == rs[q.id := row];
    forall scope
      ensures |Load(rs[q.id := row], scope, db.now)| ==
              |Load(rs, scope, db.now)| + if Covers(scope, q.user) then 1 else 0
    {
      LoadWithRow(rs, q.id, row, scope, db.now);
    }
    FullMeansFull(db, q.user, limits);
  }

  lemma LoadWithRow(rs: map<int, Reservation>, id: int, r: Reservation, scope: Scope, t: int)
    requires id !in rs
    ensures Load(rs[id := r], scope, t) ==
            Load(rs, scope, t) + if ConsumedIn(r, scope, PeriodOf(scope, t)) || Live(r, scope, t) then {id} else {}
  {
    forall i | i != id
      ensures i in Load(rs[id := r], scope, t) <==> i in Load(rs, scope, t)
    {
      if i in rs {
        assert rs[id := r][i] == rs[i];
      }
    }
  }

  lemma StepKeepsInv(db: Db, step: Step, limits: Limits)
    requires Inv(db, limits)
    ensures Inv(Next(db, step, limits), limits)
  {
    StepConsistent(db, step, limits);
    forall scope
      ensures Within(Next(db, step, limits), scope, Ceiling(scope, limits))
    {
      if step.DoCreate? {
        CreateBelowCeiling(db, step.request, limits, scope);
      } else {
        UnlockedKeepsWithin(db, step, limits, scope, Ceiling(scope, limits));
      }
    }
  }

  lemma {:induction false} RunKeepsInv(db: Db, steps: seq<Step>, limits: Limits)
    requires Inv(db, limits)
    ensures Inv(Run(db, steps, limits), limits)
  {
    if steps != [] {
      RunKeepsInv(db, steps[..|steps| - 1], limits);
      StepKeepsInv(Run(db, steps[..|steps| - 1], limits), steps[|steps| - 1], limits);
    }
  }

  /** The state of a new deployment: no uploads, reservations or submissions yet. */
  predicate Initial(db: Db) {
    db.uploads == map[] && db.reservations == map[] && db.submissions == map[] && db.analyses == {}
  }

  lemma InitialInv(db: Db, limits: Limits)
    requires Initial(db)
    ensures Inv(db, limits)
  {
    forall scope
      ensures Within(db, scope, Ceiling(scope, limits))
    {
      assert Load(db.reservations, scope, db.now) == {};
      assert forall period :: ConsumedRows(db.reservations, scope, period) == {};
    }
  }

  /**
   * The allowance bound. After any run, the submissions consumed in any UTC day or
   * month never exceed the user's limit, nor those of any UTC day the platform's.
   */
  lemma AllowanceNeverExceeded(db: Db, steps: seq<Step>, limits: Limits, scope: Scope, period: int)
    requires Initial(db)
    ensures |ConsumedRows(Run(db, steps, limits).reservations, scope, period)| <= Ceiling(scope, limits)
  {
    InitialInv(db, limits);
    RunKeepsInv(db, steps, limits);
    assert Within(Run(db, steps, limits), scope, Ceiling(scope, limits));
  }

  /** Consumed rows are never changed or deleted, so counting rows counts every consumption of the run. */
  lemma {:induction false} ConsumedForever(db: Db, steps: seq<Step>, limits: Limits, id: int)
    requires id in db.reservations && db.reservations[id].status.Consumed?
    ensures id in Run(db, steps, limits).reservations
    ensures Run(db, steps, limits).reservations[id] == db.reservations[id]
  {
    if steps != [] {
      ConsumedForever(db, steps[..|steps| - 1], limits, id);
      StepKeepsConsumed(Run(db, steps[..|steps| - 1], limits), steps[|steps| - 1], limits, id);
    }
  }

  ghost function ConsumedIds(db: Db): set<int> {
    set id | id in db.reservations && db.reservations[id].status.Consumed?
  }

  lemma PairedSizes(db: Db)
    requires Paired(db)
    ensures |db.submissions| == |ConsumedIds(db)|
  {
    var uploadOf: int -> int := s => if s in db.submissions then db.submissions[s].media else 0;
    var submissionOf: int -> int := id =>
      if id in db.reservations && db.reservations[id].status.Consumed?
      then db.reservations[id].status.submission else 0;
    var subs := db.submissions.Keys;
    forall s | s in subs
      ensures uploadOf(s) in ConsumedIds(db) && submissionOf(uploadOf(s)) == s
    {
      assert uploadOf(s) == db.submissions[s].media;
    }
    forall id | id in ConsumedIds(db)
      ensures submissionOf(id) in subs && uploadOf(submissionOf(id)) == id
    {
      assert submissionOf(id) == db.reservations[id].status.submission;
    }
    SameSize(subs, ConsumedIds(db), uploadOf, submissionOf);
    assert |db.submissions| == |subs|;
  }

  /** After any run, submissions correspond one to one to consumed reservations, and to analysis jobs enqueued. */
  lemma OneSubmissionPerConsumption(db: Db, steps: seq<Step>, limits: Limits)
    requires Initial(db)
    ensures var end := Run(db, steps, limits);
            && Paired(end) && |end.submissions| == |ConsumedIds(end)|
            && end.analyses == end.submissions.Keys
  {
    InitialInv(db, limits);
    RunKeepsInv(db, steps, limits);
    PairedSizes(Run(db, steps, limits));
  }

  // ----- the overview and the gate -----

  lemma BillingOf(db: Db, step: Step, limits: Limits)
    ensures Next(db, step, limits).billing == if step.Bill? then Billing.Apply(db.billing, step.op) else db.billing
  {
  }

  lemma {:induction false} RunKeepsAgreement(db: Db, steps: seq<Step>, limits: Limits)
    requires Billing.Agree(db.billing)
    ensures Billing.Agree(Run(db, steps, limits).billing)
  {
    if steps != [] {
      var mid, step := Run(db, steps[..|steps| - 1], limits), steps[|steps| - 1];
      RunKeepsAgreement(db, steps[..|steps| - 1], limits);
      BillingOf(mid, step, limits);
      if step.Bill? {
        Billing.ApplyKeepsAgreement(mid.billing, step.op);
      }
    }
  }

  /**
   * After any run, for an active account and while the platform has room, an upload
   * is admitted exactly when the overview shows an active subscription and something
   * left of both allowances, although the two read different tables.
   */
  lemma {:induction false} OverviewAgreesWithGate(db: Db, steps: seq<Step>, limits: Limits, q: Request)
    requires Billing.Agree(db.billing)
    requires var end := Run(db, steps, limits);
             && q.user in end.accounts && end.accounts[q.user]
             && |Load(end.reservations, GlobalDay, end.now)| < limits.globalDaily
             && q.size > 0 && q.id !in end.uploads && q.id !in end.reservations
    ensures var end := Run(db, steps, limits);
            var o := OverviewOf(end, q.user, q.entitlement, limits);
            Create(end, q, limits).1.None? <==> ShownActive(o) && o.dailyRemaining > 0 && o.monthlyRemaining > 0
  {
    RunKeepsAgreement(db, steps, limits);
    var end := Run(db, steps, limits);
    QueriesMeasureLoad(end.reservations, q.user, end.now);
  }
}
