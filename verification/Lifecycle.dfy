/**
 * What happens to one reservation in the course of a run of the ledger
 * (internal/store/subscriptions.go, internal/store/submissions.go), and what cleanup
 * (internal/store/accounts.go) does not change.
 */
module Lifecycle {
  import opened Prelude
  import opened Submissions
  import Billing
  import Calendar
  import opened Ledger

  // ----- what a reservation takes and gives back -----

  /** The rows that count while a reservation of `user` is live or consumed now. */
  ghost function Charged(db: Db, scope: Scope, user: int, id: int): set<int> {
    Load(db.reservations, scope, db.now) + if Covers(scope, user) then {id} else {}
  }

  /** A successful create charges exactly the ceilings that cover the user, by one. */
  lemma CreateCharges(db: Db, q: Request, limits: Limits, scope: Scope)
    requires q.expiresAt > db.now
    ensures Create(db, q, limits).1.None? ==>
              && q.id !in Load(db.reservations, scope, db.now)
              && Load(Create(db, q, limits).0.reservations, scope, db.now) == Charged(db, scope, q.user, q.id)
  {
    CreateInserts(db, q, limits);
    if Insert(db, q).1.None? {
      LoadWithRow(db.reservations, q.id, Insert(db, q).0.reservations[q.id], scope, db.now);
    }
  }

  lemma ReleaseUndoesInsert(db: Db, q: Request, scope: Scope)
    requires Insert(db, q).1.None?
    ensures var db' := Release(Insert(db, q).0, q.id, q.user);
            && Load(db'.reservations, scope, db.now) == Load(db.reservations, scope, db.now)
            && db'.uploads == db.uploads[q.id := Upload(q.user, q.size, UploadStatus.Expired, q.expiresAt)]
  {
    var db' := Release(Insert(db, q).0, q.id, q.user);
    assert db'.reservations == db.reservations[q.id := db'.reservations[q.id]];
    LoadWithRow(db.reservations, q.id, db'.reservations[q.id], scope, db.now);
  }

  /** Releasing a reservation gives back what the create took, under every ceiling. */
  lemma ReleaseUndoesCreate(db: Db, q: Request, limits: Limits, scope: Scope)
    ensures Create(db, q, limits).1.None? ==>
              var db' := Release(Create(db, q, limits).0, q.id, q.user);
              && Load(db'.reservations, scope, db.now) == Load(db.reservations, scope, db.now)
              && db'.uploads == db.uploads[q.id := Upload(q.user, q.size, UploadStatus.Expired, q.expiresAt)]
  {
    CreateInserts(db, q, limits);
    if Insert(db, q).1.None? {
      ReleaseUndoesInsert(db, q, scope);
    }
  }

  // ----- from the create to the submission -----

  /** A step that names the upload and could change its rows. */
  predicate Touches(step: Step, id: int) {
    match step
    case DoComplete(i, _, _, _) => i == id
    case DoRelease(i, _) => i == id
    case DoSubmit(e) => e.upload == id
    case DoExpire(i) => i == id
    case DoReject(i) => i == id
    case _ => false
  }

  predicate LeftAlone(steps: seq<Step>, id: int) {
    forall i :: 0 <= i < |steps| ==> !Touches(steps[i], id)
  }

  /** The rows of an upload whose reservation is still reserved. */
  predicate Holds(db: Db, id: int, upload: Upload, r: Reservation) {
    && id in db.uploads && db.uploads[id] == upload
    && id in db.reservations && db.reservations[id] == r && r.status.Reserved?
  }

  lemma StepLeavesRows(db: Db, step: Step, limits: Limits, id: int, upload: Upload, r: Reservation)
    requires Holds(db, id, upload, r) && !Touches(step, id) && db.now <= r.expiresAt
    ensures Holds(Next(db, step, limits), id, upload, r)
  {
    match step
    case DoCreate(q) => CreateInserts(db, q, limits);
    case _ =>
  }

  lemma {:induction false} ClockInRun(db: Db, steps: seq<Step>, limits: Limits)
    ensures db.now <= Run(db, steps, limits).now
  {
    if steps != [] {
      ClockInRun(db, steps[..|steps| - 1], limits);
      ClockForward(Run(db, steps[..|steps| - 1], limits), steps[|steps| - 1], limits);
    }
  }

  /** Until its reservation expires, no run of other steps, cleanups included, changes the rows of an upload. */
  lemma {:induction false} RunLeavesRows(
    db: Db, steps: seq<Step>, limits: Limits, id: int, upload: Upload, r: Reservation)
    requires Holds(db, id, upload, r) && LeftAlone(steps, id) && Run(db, steps, limits).now <= r.expiresAt
    ensures Holds(Run(db, steps, limits), id, upload, r)
  {
    if steps != [] {
      var front, step := steps[..|steps| - 1], steps[|steps| - 1];
      ClockForward(Run(db, front, limits), step, limits);
      RunLeavesRows(db, front, limits, id, upload, r);
      StepLeavesRows(Run(db, front, limits), step, limits, id, upload, r);
    }
  }

  lemma Inserted(db: Db, q: Request)
    requires Insert(db, q).1.None?
    ensures Holds(Insert(db, q).0, q.id, Upload(q.user, q.size, Pending, q.expiresAt),
                  Reservation(q.user, q.entitlement, Reserved, q.expiresAt, db.now))
  {
  }

  lemma CompletedInTime(db: Db, q: Request, extended: int, r: Reservation)
    requires Holds(db, q.id, Upload(q.user, q.size, Pending, q.expiresAt), r) && db.now < q.expiresAt
    requires r.user == q.user && r.entitlement == q.entitlement
    ensures var (completed, error) := Complete(db, q.id, q.user, q.size, extended);
            && error.None?
            && Holds(completed, q.id, Upload(q.user, q.size, Uploaded, q.expiresAt),
                     Reservation(q.user, q.entitlement, Reserved, extended, db.now))
  {
  }

  /** The challenge is open, and nothing clashes with the user's submission of a completed upload to it. */
  predicate Submittable(db: Db, q: Request, e: Entry) {
    && e.upload == q.id && e.user == q.user
    && e.challenge in db.challenges && Open(db.challenges[e.challenge], db.now)
    && e.submission !in db.submissions
    && (forall s :: s in db.submissions ==> !Clashes(db.submissions[s], e))
    && Entitled(db.billing, (q.user, q.entitlement), db.now)
  }

  /** The upload is submitted: one reservation consumed, one submission, one analysis job, all else as it was. */
  ghost predicate Submitted(before: Db, after: Db, q: Request, e: Entry) {
    && after.reservations.Keys == before.reservations.Keys && q.id in before.reservations
    && after.reservations[q.id] ==
       before.reservations[q.id].(status := Consumed(before.now, e.submission), updatedAt := before.now)
    && (forall id :: id in before.reservations && id != q.id ==> after.reservations[id] == before.reservations[id])
    && q.id in before.uploads && after.uploads == before.uploads[q.id := before.uploads[q.id].(status := Used)]
    && after.submissions == before.submissions[e.submission := NewSubmission(e.challenge, e.user, e.upload)]
    && after.analyses == before.analyses + {e.submission}
  }

  lemma SubmittedInTime(db: Db, q: Request, e: Entry, upload: Upload, r: Reservation, scope: Scope)
    requires Holds(db, q.id, upload, r) && upload.user == q.user && upload.status == Uploaded
    requires r.user == q.user && r.entitlement == q.entitlement && db.now < r.expiresAt && Submittable(db, q, e)
    ensures Submit(db, e).1.None? && Submitted(db, Submit(db, e).0, q, e)
    ensures Load(Submit(db, e).0.reservations, scope, db.now) == Load(db.reservations, scope, db.now)
    ensures Covers(scope, q.user) ==> q.id in Load(db.reservations, scope, db.now)
  {
    assert SubmitError(db, e).None?;
    var after := Submit(db, e).0;
    forall id
      ensures id in Load(after.reservations, scope, db.now) <==> id in Load(db.reservations, scope, db.now)
    {
      if id in db.reservations && id != q.id {
        assert after.reservations[id] == db.reservations[id];
      }
    }
  }

  /**
   * The whole way of an admitted upload, whatever other steps come in between: completed
   * before it expires, it is completed; submitted before the extended expiry to an open
   * challenge, by a user who is still entitled, it is never refused. The submission
   * changes no ceiling's load, in which the reservation counts once.
   */
  lemma AdmittedUploadCanBeSubmitted(
    db: Db, q: Request, limits: Limits, before: seq<Step>, extended: int, between: seq<Step>, e: Entry, scope: Scope)
    requires LeftAlone(before, q.id) && LeftAlone(between, q.id)
    ensures var (created, refused) := Create(db, q, limits);
            var waiting := Run(created, before, limits);
            refused.None? && waiting.now < q.expiresAt ==>
              var (completed, error) := Complete(waiting, q.id, q.user, q.size, extended);
              var ready := Run(completed, between, limits);
              && error.None?
              && (ready.now < extended && Submittable(ready, q, e) ==>
                    var (submitted, error') := Submit(ready, e);
                    && error'.None? && Submitted(ready, submitted, q, e)
                    && Load(submitted.reservations, scope, ready.now) == Load(ready.reservations, scope, ready.now)
                    && (Covers(scope, q.user) ==> q.id in Load(ready.reservations, scope, ready.now)))
  {
    var (created, refused) := Create(db, q, limits);
    var waiting := Run(created, before, limits);
    if refused.None? && waiting.now < q.expiresAt {
      CreateInserts(db, q, limits);
      Inserted(db, q);
      var upload, r := created.uploads[q.id], created.reservations[q.id];
      RunLeavesRows(created, before, limits, q.id, upload, r);
      CompletedInTime(waiting, q, extended, r);
      var completed := Complete(waiting, q.id, q.user, q.size, extended).0;
      var ready := Run(completed, between, limits);
      if ready.now < extended && Submittable(ready, q, e) {
        RunLeavesRows(completed, between, limits, q.id, completed.uploads[q.id], completed.reservations[q.id]);
        SubmittedInTime(ready, q, e, completed.uploads[q.id], completed.reservations[q.id], scope);
      }
    }
  }

  // ----- what cleanup does not change -----

  /** A reservation that can neither be completed, nor submitted, nor count against a ceiling any more. */
  predicate Spent(r: Reservation, now: int) {
    r.status.Released? || (r.status.Reserved? && r.expiresAt <= now)
  }

  /** `less` is `db` without some of its spent reservations. */
  ghost predicate Pruned(db: Db, less: Db) {
    && less == db.(reservations := less.reservations)
    && (forall id :: id in less.reservations ==>
          id in db.reservations && less.reservations[id] == db.reservations[id])
    && (forall id :: id in db.reservations && id !in less.reservations ==> Spent(db.reservations[id], db.now))
  }

  lemma PrunedLoad(db: Db, less: Db, scope: Scope, period: int)
    requires Pruned(db, less)
    ensures Load(less.reservations, scope, db.now) == Load(db.reservations, scope, db.now)
    ensures ConsumedRows(less.reservations, scope, period) == ConsumedRows(db.reservations, scope, period)
  {
    forall id
      ensures id in Load(less.reservations, scope, db.now) <==> id in Load(db.reservations, scope, db.now)
      ensures id in ConsumedRows(less.reservations, scope, period) <==>
              id in ConsumedRows(db.reservations, scope, period)
    {
      if id in less.reservations {
        assert less.reservations[id] == db.reservations[id];
      }
    }
  }

  /** Missing spent reservations change no answer of the store. */
  lemma PrunedAnswers(db: Db, less: Db, step: Step, limits: Limits)
    requires Consistent(db) && Pruned(db, less)
    ensures match step
            case DoCreate(q) => Create(less, q, limits).1 == Create(db, q, limits).1
            case DoComplete(id, user, size, at) =>
              Complete(less, id, user, size, at).1 == Complete(db, id, user, size, at).1
            case DoSubmit(e) => Submit(less, e).1 == Submit(db, e).1
            case _ => true
  {
    match step
    case DoCreate(q) => PrunedFull(db, less, q.user, limits);
    case DoComplete(id, user, size, at) => PrunedComplete(db, less, id, user, size, at);
    case DoSubmit(e) => PrunedSubmit(db, less, e);
    case _ =>
  }

  lemma PrunedComplete(db: Db, less: Db, id: int, user: int, size: int, at: int)
    requires Consistent(db) && Pruned(db, less)
    ensures Complete(less, id, user, size, at).1 == Complete(db, id, user, size, at).1
  {
  }

  lemma PrunedSubmit(db: Db, less: Db, e: Entry)
    requires Pruned(db, less)
    ensures Submit(less, e).1 == Submit(db, e).1
  {
  }

  lemma PrunedFull(db: Db, less: Db, user: int, limits: Limits)
    requires Pruned(db, less)
    ensures Full(less, user, limits) == Full(db, user, limits)
  {
    QueriesMeasureLoad(db.reservations, user, db.now);
    QueriesMeasureLoad(less.reservations, user, db.now);
    PrunedLoad(db, less, UserDay(user), 0);
    PrunedLoad(db, less, UserMonth(user), 0);
    PrunedLoad(db, less, GlobalDay, 0);
  }

  lemma StepKeepsPruned(db: Db, less: Db, step: Step, limits: Limits)
    requires Consistent(db) && Pruned(db, less)
    ensures Pruned(Next(db, step, limits), Next(less, step, limits))
  {
    match step
    case DoCreate(q) => CreateKeepsPruned(db, less, q, limits);
    case DoComplete(id, user, size, at) => CompleteKeepsPruned(db, less, id, user, size, at);
    case DoSubmit(e) => SubmitKeepsPruned(db, less, e);
    case DoRelease(id, user) => ReleaseKeepsPruned(db, less, id, user);
    case DoCleanup => CleanupKeepsPruned(db, less);
    case _ =>
  }

  lemma SubmitKeepsPruned(db: Db, less: Db, e: Entry)
    requires Pruned(db, less)
    ensures Pruned(Submit(db, e).0, Submit(less, e).0)
  {
  }

  lemma ReleaseKeepsPruned(db: Db, less: Db, id: int, user: int)
    requires Pruned(db, less)
    ensures Pruned(Release(db, id, user), Release(less, id, user))
  {
  }

  lemma CleanupKeepsPruned(db: Db, less: Db)
    requires Pruned(db, less)
    ensures Pruned(Cleanup(db), Cleanup(less))
  {
  }

  lemma CreateKeepsPruned(db: Db, less: Db, q: Request, limits: Limits)
    requires Consistent(db) && Pruned(db, less)
    ensures Pruned(Create(db, q, limits).0, Create(less, q, limits).0)
  {
    PrunedAnswers(db, less, DoCreate(q), limits);
    CreateInserts(db, q, limits);
    CreateInserts(less, q, limits);
    if Create(db, q, limits).1.None? {
      assert Pruned(Insert(db, q).0, Insert(less, q).0);
    }
  }

  lemma CompleteKeepsPruned(db: Db, less: Db, id: int, user: int, size: int, at: int)
    requires Consistent(db) && Pruned(db, less)
    ensures Pruned(Complete(db, id, user, size, at).0, Complete(less, id, user, size, at).0)
  {
  }

  lemma CleanupPrunes(db: Db)
    ensures Pruned(db, Cleanup(db))
  {
  }

  lemma {:induction false} RunKeepsPruned(db: Db, less: Db, steps: seq<Step>, limits: Limits)
    requires Consistent(db) && Paired(db) && Pruned(db, less)
    ensures Consistent(Run(db, steps, limits)) && Paired(Run(db, steps, limits))
    ensures Pruned(Run(db, steps, limits), Run(less, steps, limits))
  {
    if steps != [] {
      var front, step := steps[..|steps| - 1], steps[|steps| - 1];
      RunKeepsPruned(db, less, front, limits);
      StepKeepsPruned(Run(db, front, limits), Run(less, front, limits), step, limits);
      StepConsistent(Run(db, front, limits), step, limits);
    }
  }

  /**
   * Cleanup cannot be observed: however long a run goes on after it, every table but the
   * reservations, the load and the consumption under every ceiling, and the answer to
   * every request are those of the run without it.
   */
  lemma CleanupUnobservable(db: Db, steps: seq<Step>, limits: Limits, request: Step, scope: Scope, period: int)
    requires Consistent(db) && Paired(db)
    ensures var (plain, cleaned) := (Run(db, steps, limits), Run(Cleanup(db), steps, limits));
            && cleaned == plain.(reservations := cleaned.reservations)
            && Load(cleaned.reservations, scope, plain.now) == Load(plain.reservations, scope, plain.now)
            && ConsumedRows(cleaned.reservations, scope, period) == ConsumedRows(plain.reservations, scope, period)
            && match request {
                 case DoCreate(q) => Create(cleaned, q, limits).1 == Create(plain, q, limits).1
                 case DoComplete(id, user, size, at) =>
                   Complete(cleaned, id, user, size, at).1 == Complete(plain, id, user, size, at).1
                 case DoSubmit(e) => Submit(cleaned, e).1 == Submit(plain, e).1
                 case _ => true
               }
  {
    CleanupPrunes(db);
    RunKeepsPruned(db, Cleanup(db), steps, limits);
    PrunedLoad(Run(db, steps, limits), Run(Cleanup(db), steps, limits), scope, period);
    PrunedAnswers(Run(db, steps, limits), Run(Cleanup(db), steps, limits), request, limits);
  }
}
