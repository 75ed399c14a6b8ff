/**
 * What the ledger answers to each request, in terms of the columns it reads
 * (internal/store/subscriptions.go, internal/store/submissions.go), and where the
 * submissions of a run come from.
 */
module Requests {
  import opened Prelude
  import opened Submissions
  import Billing
  import Calendar
  import opened Ledger

  /** The user's row of `entitlements` is active and has not run out. */
  predicate Subscribed(db: Db, user: int, entitlement: string) {
    var k := (user, entitlement);
    && k in db.billing.entitlements && db.billing.entitlements[k].active
    && (db.billing.entitlements[k].validUntil.Some? ==> db.now < db.billing.entitlements[k].validUntil.value)
  }

  // ----- creating an upload -----

  predicate ActiveAccount(db: Db, user: int) { user in db.accounts && db.accounts[user] }

  ghost predicate AnyFull(db: Db, user: int, limits: Limits) {
    exists scope :: Covers(scope, user) && |Load(db.reservations, scope, db.now)| >= Ceiling(scope, limits)
  }

  /** A create is answered by the first of its checks that fails; it is admitted exactly when none does. */
  lemma CreateAnswers(db: Db, q: Request, limits: Limits)
    ensures var (answer, full) := (Create(db, q, limits).1, AnyFull(db, q.user, limits));
            var admissible := ActiveAccount(db, q.user) && Subscribed(db, q.user, q.entitlement);
            && (answer == Some(NotFound) <==> q.user !in db.accounts)
            && (answer == Some(Forbidden) <==> q.user in db.accounts && !db.accounts[q.user])
            && (answer == Some(SubscriptionRequired) <==>
                ActiveAccount(db, q.user) && !Subscribed(db, q.user, q.entitlement))
            && (answer.Some? && answer.value.UsageLimit? <==> admissible && full)
            && (answer == Some(Invalid) <==> admissible && !full && q.size <= 0)
            && (answer == Some(Conflict) <==>
                admissible && !full && q.size > 0 && (q.id in db.uploads || q.id in db.reservations))
            && (answer.None? <==>
                admissible && !full && q.size > 0 && q.id !in db.uploads && q.id !in db.reservations)
  {
    FullMeansFull(db, q.user, limits);
    assert AnyFull(db, q.user, limits) <==> Full(db, q.user, limits).Some?;
  }

  /** A create writes an upload and its reservation, both until the instant asked for, or nothing. */
  lemma CreateWrites(db: Db, q: Request, limits: Limits)
    ensures var (db', answer) := Create(db, q, limits);
            if answer.Some? then db' == db
            else
              && q.id !in db.uploads && q.id !in db.reservations
              && db' == db.(uploads := db'.uploads, reservations := db'.reservations)
              && db'.uploads == db.uploads[q.id := Upload(q.user, q.size, Pending, q.expiresAt)]
              && db'.reservations ==
                 db.reservations[q.id := Reservation(q.user, q.entitlement, Reserved, q.expiresAt, db.now)]
  {
    CreateInserts(db, q, limits);
  }

  function ScopeOf(period: Period, user: int): Scope {
    match period
    case GlobalDaily => GlobalDay
    case Daily => UserDay(user)
    case Monthly => UserMonth(user)
  }

  /** `t` is the first instant of the period after that of `now`. */
  ghost predicate NextPeriodBegins(scope: Scope, now: int, t: int) {
    && now < t && PeriodOf(scope, t) != PeriodOf(scope, now)
    && forall u :: now <= u < t ==> PeriodOf(scope, u) == PeriodOf(scope, now)
  }

  lemma WindowsEnd(w: Calendar.Windows, scope: Scope, now: int)
    requires Calendar.Fit(w, now)
    ensures NextPeriodBegins(scope, now, if scope.UserMonth? then w.monthEnd else w.dayEnd)
  {
    assert w.dayStart <= now < w.dayEnd <==> Calendar.DayOf(now) == Calendar.DayOf(now);
    assert w.monthStart <= now < w.monthEnd <==>
      Calendar.MonthOf(Calendar.DayOf(now)) == Calendar.MonthOf(Calendar.DayOf(now));
  }

  /**
   * A refusal for want of capacity names the first full ceiling, of platform, day and
   * month in this order, its limit, and the instant at which its next period begins.
   */
  lemma LimitNamed(db: Db, q: Request, limits: Limits)
    requires var answer := Create(db, q, limits).1; answer.Some? && answer.value.UsageLimit?
    ensures var refusal := Create(db, q, limits).1.value;
            var scope := ScopeOf(refusal.period, q.user);
            && |Load(db.reservations, scope, db.now)| >= Ceiling(scope, limits) == refusal.limit
            && NextPeriodBegins(scope, db.now, refusal.resetAt)
            && (!scope.GlobalDay? ==> HasRoom(db, GlobalDay, limits))
            && (scope.UserMonth? ==> HasRoom(db, UserDay(q.user), limits))
  {
    Calendar.WindowsFit(db.now);
    CapacityNames(db, q.user, limits, Calendar.UsageWindows(db.now));
    assert Create(db, q, limits).1 == Full(db, q.user, limits);
  }

  lemma CapacityNames(db: Db, user: int, limits: Limits, w: Calendar.Windows)
    requires Calendar.Fit(w, db.now)
    ensures var full := Capacity(limits, w,
                                 CountAll(db.reservations, w.dayStart, w.dayEnd, db.now),
                                 CountUser(db.reservations, user, w.dayStart, w.dayEnd, db.now),
                                 CountUser(db.reservations, user, w.monthStart, w.monthEnd, db.now));
            full.Some? ==>
              && full.value.UsageLimit?
              && var scope := ScopeOf(full.value.period, user);
                 && |Load(db.reservations, scope, db.now)| >= Ceiling(scope, limits) == full.value.limit
                 && NextPeriodBegins(scope, db.now, full.value.resetAt)
                 && (!scope.GlobalDay? ==> HasRoom(db, GlobalDay, limits))
                 && (scope.UserMonth? ==> HasRoom(db, UserDay(user), limits))
  {
    FittingQueries(db.reservations, user, db.now, w);
    WindowsEnd(w, GlobalDay, db.now);
    WindowsEnd(w, UserDay(user), db.now);
    WindowsEnd(w, UserMonth(user), db.now);
  }

  // ----- completing and releasing it -----

  /** An upload is completed by its owner, with the announced size, before it expires, while still reserved. */
  lemma CompleteAnswers(db: Db, id: int, user: int, size: int, expiresAt: int)
    ensures var (db', answer) := Complete(db, id, user, size, expiresAt);
            var pending := && id in db.uploads && db.uploads[id].user == user && db.uploads[id].status == Pending
                           && db.now < db.uploads[id].expiresAt && size == db.uploads[id].expectedSize;
            var reserved := && id in db.reservations && db.reservations[id].user == user
                            && db.reservations[id].status == Reserved;
            && answer == (if !pending then Some(NotFound) else if !reserved then Some(Invalid) else None)
            && (answer.Some? ==> db' == db)
            && (answer.None? ==>
                  && db' == db.(uploads := db'.uploads, reservations := db'.reservations)
                  && db'.uploads == db.uploads[id := db.uploads[id].(status := Uploaded)]
                  && db'.reservations ==
                     db.reservations[id := db.reservations[id].(expiresAt := expiresAt, updatedAt := db.now)])
  {
  }

  /** Releasing touches only rows of the user: a reserved reservation and a pending upload. */
  lemma ReleaseOwned(db: Db, id: int, user: int)
    ensures var db' := Release(db, id, user);
            && db' == db.(uploads := db'.uploads, reservations := db'.reservations)
            && db'.uploads.Keys == db.uploads.Keys && db'.reservations.Keys == db.reservations.Keys
            && (forall i :: i in db.reservations ==>
                  db'.reservations[i] ==
                  if i == id && db.reservations[i].user == user && db.reservations[i].status == Reserved
                  then db.reservations[i].(status := Released, updatedAt := db.now) else db.reservations[i])
            && (forall i :: i in db.uploads ==>
                  db'.uploads[i] ==
                  if i == id && db.uploads[i].user == user && db.uploads[i].status == Pending
                  then db.uploads[i].(status := Expired) else db.uploads[i])
  {
  }

  /** Nobody releases another user's upload. */
  lemma OthersReleaseNothing(db: Db, id: int, user: int)
    requires id in db.uploads ==> db.uploads[id].user != user
    requires id in db.reservations ==> db.reservations[id].user != user
    ensures Release(db, id, user) == db
  {
  }

  /** A rejected or expired upload cannot be submitted, nor completed. */
  lemma MarkedIsLost(db: Db, id: int, user: int, size: int, expiresAt: int, e: Entry)
    requires e.upload == id
    ensures var db' := RejectUpload(db, id);
            && (id !in db.uploads ==> db' == db)
            && (id in db.uploads ==>
                  db' == db.(uploads := db.uploads[id := db.uploads[id].(status := UploadStatus.Rejected)]))
            && Submit(db', e).1.Some? && Complete(db', id, user, size, expiresAt).1 == Some(NotFound)
    ensures var db' := ExpireUpload(db, id);
            if id !in db.uploads || db.uploads[id].status == Used || db.uploads[id].status == Uploaded then db' == db
            else
              && db' == db.(uploads := db.uploads[id := db.uploads[id].(status := UploadStatus.Expired)])
              && Submit(db', e).1.Some? && Complete(db', id, user, size, expiresAt).1 == Some(NotFound)
  {
  }

  // ----- submitting it -----

  /** The challenge is published and takes submissions now. */
  predicate TakesSubmissions(db: Db, e: Entry) {
    && e.challenge in db.challenges && db.challenges[e.challenge].published
    && db.challenges[e.challenge].startsAt <= db.now && db.now < db.challenges[e.challenge].endsAt
  }

  predicate OwnsUpload(db: Db, e: Entry) { e.upload in db.uploads && db.uploads[e.upload].user == e.user }

  /** The upload is complete, its reservation is the user's and still live, and there is an entitlement row for it. */
  predicate Backed(db: Db, e: Entry) {
    && e.upload in db.uploads && db.uploads[e.upload].status == Uploaded && e.upload in db.reservations
    && db.reservations[e.upload].user == e.user && db.reservations[e.upload].status == Reserved
    && db.now < db.reservations[e.upload].expiresAt
    && (e.user, db.reservations[e.upload].entitlement) in db.billing.entitlements
  }

  predicate StillSubscribed(db: Db, e: Entry) {
    e.upload in db.reservations && Subscribed(db, e.user, db.reservations[e.upload].entitlement)
  }

  /** The ID is taken, or the upload has been submitted, or the user has already entered the challenge. */
  ghost predicate Taken(db: Db, e: Entry) {
    e.submission in db.submissions
    || exists s :: s in db.submissions
                   && (|| db.submissions[s].media == e.upload
                       || (db.submissions[s].challenge == e.challenge && db.submissions[s].user == e.user))
  }

  /** A submission is answered by the first of its checks that fails; it is accepted exactly when none does. */
  lemma SubmitAnswers(db: Db, e: Entry)
    ensures Submit(db, e).1 ==
            if e.challenge !in db.challenges then Some(NotFound)
            else if !TakesSubmissions(db, e) then Some(Invalid)
            else if !OwnsUpload(db, e) then Some(NotFound)
            else if !Backed(db, e) then Some(Invalid)
            else if !StillSubscribed(db, e) then Some(SubscriptionRequired)
            else if Taken(db, e) then Some(Conflict)
            else None
    ensures Submit(db, e).1.None? <==>
              && TakesSubmissions(db, e) && OwnsUpload(db, e) && Backed(db, e) && StillSubscribed(db, e)
              && !Taken(db, e)
  {
    assert Taken(db, e) <==>
      e.submission in db.submissions || exists s :: s in db.submissions && Clashes(db.submissions[s], e);
  }

  /** An accepted submission writes its row and its analysis job and uses up the upload and the reservation. */
  lemma SubmitWrites(db: Db, e: Entry)
    ensures var (db', answer) := Submit(db, e);
            if answer.Some? then db' == db
            else
              && e.upload in db.uploads && e.upload in db.reservations && e.submission !in db.submissions
              && db' == db.(submissions := db'.submissions, analyses := db.analyses + {e.submission},
                            uploads := db'.uploads, reservations := db'.reservations)
              && db'.submissions ==
                 db.submissions[e.submission :=
                   Submission(e.challenge, e.user, e.upload, Unverified, Unmoderated, None)]
              && db'.uploads == db.uploads[e.upload := db.uploads[e.upload].(status := Used)]
              && db'.reservations ==
                 db.reservations[e.upload :=
                   db.reservations[e.upload].(status := Consumed(db.now, e.submission), updatedAt := db.now)]
  {
  }

  // ----- where submissions come from -----

  /**
   * Step `i` of the run made the submission: at that instant its challenge took
   * submissions, its upload was complete and reserved, and its user subscribed.
   */
  ghost predicate MadeBy(db: Db, steps: seq<Step>, limits: Limits, s: int, row: Submission, i: int) {
    && 0 <= i < |steps| && steps[i].DoSubmit?
    && var (e, mid) := (steps[i].entry, Run(db, steps[..i], limits));
       && e.submission == s && e.challenge == row.challenge && e.user == row.user && e.upload == row.media
       && TakesSubmissions(mid, e) && OwnsUpload(mid, e) && Backed(mid, e) && StillSubscribed(mid, e)
  }

  lemma StepKeepsSubmissions(db: Db, step: Step, limits: Limits, s: int)
    requires s in Next(db, step, limits).submissions
    ensures if s in db.submissions then Next(db, step, limits).submissions[s] == db.submissions[s]
            else step.DoSubmit? && step.entry.submission == s && Submit(db, step.entry).1.None?
  {
    match step
    case DoCreate(q) => CreateInserts(db, q, limits);
    case DoSubmit(e) => SubmitWrites(db, e);
    case _ =>
  }

  /** Over every run, each submission was made within its challenge's time, by a subscribed user, and never changes. */
  lemma {:induction false} SubmissionsEarned(db: Db, steps: seq<Step>, limits: Limits, s: int)
    requires Initial(db) && s in Run(db, steps, limits).submissions
    ensures exists i :: MadeBy(db, steps, limits, s, Run(db, steps, limits).submissions[s], i)
  {
    var n := |steps| - 1;
    var front := steps[..n];
    var mid, row := Run(db, front, limits), Run(db, steps, limits).submissions[s];
    StepKeepsSubmissions(mid, steps[n], limits, s);
    if s in mid.submissions {
      SubmissionsEarned(db, front, limits, s);
      var i :| MadeBy(db, front, limits, s, row, i);
      assert front[..i] == steps[..i];
      assert MadeBy(db, steps, limits, s, row, i);
    } else {
      SubmitAnswers(mid, steps[n].entry);
      SubmitWrites(mid, steps[n].entry);
      assert MadeBy(db, steps, limits, s, row, n);
    }
  }

  // ----- the overview -----

  /**
   * The overview shows the user's row of `subscriptions`, as expired once its period is
   * over, what is used and left of both allowances, and when each starts afresh.
   */
  lemma OverviewShows(db: Db, user: int, entitlement: string, limits: Limits)
    ensures var (o, k) := (OverviewOf(db, user, entitlement, limits), (user, entitlement));
            && (o.subscription.None? <==> k !in db.billing.subscriptions)
            && (k in db.billing.subscriptions ==>
                  var row := db.billing.subscriptions[k];
                  && (o.subscription == Some(row.(active := false, willRenew := false, status := Billing.Expired))
                      || (o.subscription == Some(row) && (row.periodEnd.Some? ==> db.now < row.periodEnd.value)))
                  && (row.periodEnd.None? || db.now < row.periodEnd.value ==> o.subscription == Some(row)))
            && (o.pro <==> k in db.billing.subscriptions
                           && !(db.billing.subscriptions[k].product == ""
                                && db.billing.subscriptions[k].status == Billing.Inactive))
            && o.dailyLimit == limits.daily && o.monthlyLimit == limits.monthly
            && o.dailyUsed == |Load(db.reservations, UserDay(user), db.now)|
            && o.monthlyUsed == |Load(db.reservations, UserMonth(user), db.now)|
            && 0 <= o.dailyRemaining && (o.dailyRemaining == limits.daily - o.dailyUsed || limits.daily <= o.dailyUsed)
            && (limits.daily <= o.dailyUsed ==> o.dailyRemaining == 0)
            && 0 <= o.monthlyRemaining
            && (o.monthlyRemaining == limits.monthly - o.monthlyUsed || limits.monthly <= o.monthlyUsed)
            && (limits.monthly <= o.monthlyUsed ==> o.monthlyRemaining == 0)
            && NextPeriodBegins(UserDay(user), db.now, o.dailyResetsAt)
            && NextPeriodBegins(UserMonth(user), db.now, o.monthlyResetsAt)
  {
    var w := Calendar.UsageWindows(db.now);
    Calendar.WindowsFit(db.now);
    FittingQueries(db.reservations, user, db.now, w);
    WindowsEnd(w, UserDay(user), db.now);
    WindowsEnd(w, UserMonth(user), db.now);
  }
}
