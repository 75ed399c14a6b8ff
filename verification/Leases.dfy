/**
 * What claims, failures and the other statements on the job queue do, in terms of the
 * columns they read, and how long a failed job waits (internal/store/jobs.go,
 * internal/store/analysis.go, internal/worker/worker.go).
 */
module Leases {
  import opened Prelude
  import opened Submissions
  import opened Jobs
  import opened Workers

  // ----- claiming -----

  /** The lease has expired: the job runs, and was locked longer ago than a lease lasts. */
  predicate LeaseOver(j: Job, now: int, staleAfter: int) {
    j.status.Running? && j.status.lockedAt + staleAfter < now
  }

  /** The job may be claimed: it has an attempt left, and it is queued and due, or its lease is over. */
  predicate Ready(j: Job, now: int, staleAfter: int) {
    j.attempts < j.maxAttempts && ((j.status == Queued && j.availableAt <= now) || LeaseOver(j, now, staleAfter))
  }

  /** A recovered job counts as due from now on. */
  function DueAt(j: Job, now: int): int {
    if j.status == Queued then j.availableAt else now
  }

  /** What becomes of a job when another one is claimed. */
  function Swept(j: Job, now: int, staleAfter: int): Job {
    if !LeaseOver(j, now, staleAfter) then j
    else if j.attempts >= j.maxAttempts then j.(status := Dead, availableAt := now, completedAt := now)
    else j.(status := Queued, availableAt := now, completedAt := 0)
  }

  /** The claimed job is ready, no other ready job has been due for longer, and the worker gets its next attempt. */
  lemma ClaimTakesFirst(db: Db, staleAfter: int, pick: int, w: int)
    requires First(Recover(db, staleAfter), pick)
    ensures var (db', c) := Claimed(Recover(db, staleAfter), pick, w);
            && pick in db.jobs && Ready(db.jobs[pick], db.now, staleAfter)
            && (forall id :: id in db.jobs && Ready(db.jobs[id], db.now, staleAfter) ==>
                  var (due, other) := (DueAt(db.jobs[pick], db.now), DueAt(db.jobs[id], db.now));
                  due < other || (due == other && db.jobs[pick].createdAt <= db.jobs[id].createdAt))
            && pick in db'.jobs
            && db'.jobs[pick] ==
               db.jobs[pick].(status := Running(w, db.now), attempts := db.jobs[pick].attempts + 1,
                              availableAt := DueAt(db.jobs[pick], db.now), completedAt := db'.jobs[pick].completedAt)
            && c == Claim(pick, db.jobs[pick].kind, db.jobs[pick].entity, db.jobs[pick].attempts + 1,
                          db.jobs[pick].maxAttempts)
  {
    var recovered := Recover(db, staleAfter);
    assert recovered.jobs[pick] == RecoveredJob(db.jobs[pick], db.now, staleAfter);
    forall id | id in db.jobs && Ready(db.jobs[id], db.now, staleAfter)
      ensures Claimable(recovered, id)
      ensures recovered.jobs[id].availableAt == DueAt(db.jobs[id], db.now)
      ensures recovered.jobs[id].createdAt == db.jobs[id].createdAt
    {
      assert recovered.jobs[id] == RecoveredJob(db.jobs[id], db.now, staleAfter);
    }
  }

  /** All other jobs whose lease is over are queued again, or buried on their last attempt; the rest is untouched. */
  lemma ClaimSweepsOthers(db: Db, staleAfter: int, pick: int, w: int, id: int)
    requires First(Recover(db, staleAfter), pick) && id != pick
    ensures var db' := Claimed(Recover(db, staleAfter), pick, w).0;
            && (id in db'.jobs <==> id in db.jobs)
            && (id in db.jobs ==> db'.jobs[id] == Swept(db.jobs[id], db.now, staleAfter))
            && db' == db.(jobs := db'.jobs, submissions := db'.submissions)
  {
  }

  /** A submission goes to manual review in a claim exactly when it is pending and its analysis is buried. */
  lemma ClaimReviewsLost(db: Db, staleAfter: int, pick: int, w: int, s: int)
    requires First(Recover(db, staleAfter), pick)
    ensures var db' := Claimed(Recover(db, staleAfter), pick, w).0;
            && (s in db'.submissions <==> s in db.submissions)
            && (s in db.submissions ==>
                  db'.submissions[s] ==
                  if db.submissions[s].verification == Unverified && exists id :: BuriedAnalysis(db, staleAfter, id, s)
                  then db.submissions[s].(verification := ManualReview, moderation := Unmoderated)
                  else db.submissions[s])
  {
    if Lost(db, s, staleAfter) {
      var id :| id in db.jobs && db.jobs[id].kind == Analyze && db.jobs[id].entity == s
                && Stale(db.jobs[id], db.now, staleAfter) && Exhausted(db.jobs[id]);
      assert BuriedAnalysis(db, staleAfter, id, s);
    }
  }

  predicate BuriedAnalysis(db: Db, staleAfter: int, id: int, s: int) {
    && id in db.jobs && db.jobs[id].kind == Analyze && db.jobs[id].entity == s
    && LeaseOver(db.jobs[id], db.now, staleAfter) && db.jobs[id].attempts >= db.jobs[id].maxAttempts
  }

  // ----- failing, completing, deciding -----

  /** Only the worker that holds the lease fails a job; the row then waits, or is dead from now on. */
  lemma FailAnswers(db: Db, c: Claim, w: int)
    requires c.attempts >= 1
    ensures var (db', answer) := Fail(db, c, w);
            if c.job in db.jobs && db.jobs[c.job].status.Running? && db.jobs[c.job].status.owner == w
            then
              && answer.None?
              && db' == db.(jobs := db.jobs[c.job := db.jobs[c.job].(
                              status := if c.attempts < c.maxAttempts then Queued else Dead,
                              availableAt := db.now + RetryWait(c.attempts),
                              completedAt := if c.attempts < c.maxAttempts then 0 else db.now)])
            else answer == Some(Conflict) && db' == db
  {
    BackoffIsRetryWait(c.attempts);
  }

  /** Only the worker that holds the lease completes a job. */
  lemma CompleteAnswers(db: Db, id: int, w: int)
    ensures var (db', answer) := Complete(db, id, w);
            if id in db.jobs && db.jobs[id].status.Running? && db.jobs[id].status.owner == w
            then
              && answer.None?
              && db' == db.(jobs := db.jobs[id := db.jobs[id].(status := Succeeded, completedAt := db.now)])
            else answer == Some(Conflict) && db' == db
  {
  }

  /** A verdict is stored for a submission that is pending or in manual review; it publishes one that passed. */
  lemma VerdictStored(db: Db, s: int, v: Verification, m: Moderation)
    ensures var (db', answer) := Analysis(db, s, v, m);
            if s in db.submissions && db.submissions[s].verification in {Unverified, ManualReview}
            then
              && answer.None? && db' == db.(submissions := db'.submissions) && s in db'.submissions
              && db'.submissions == db.submissions[s := db'.submissions[s]]
              && VerdictRow(db.submissions[s], db'.submissions[s], v, m, db.now)
            else answer == Some(Conflict) && db' == db
  {
  }

  /** It carries both statuses, and is published exactly when passed and approved, since when it first was. */
  predicate VerdictRow(row: Submission, row': Submission, v: Verification, m: Moderation, now: int) {
    && row' == row.(verification := v, moderation := m, publishedAt := row'.publishedAt)
    && (row'.publishedAt.Some? <==> v == Passed && m == Approved)
    && (row'.publishedAt.Some? ==>
          row'.publishedAt == if row.publishedAt.Some? then row.publishedAt else Some(now))
  }

  /** A purge deletes exactly the jobs that ended more than 30 days ago. */
  lemma PurgeDeletes(db: Db)
    ensures var db' := Cleanup(db);
            && db' == db.(jobs := db'.jobs)
            && (forall id :: id in db'.jobs ==> id in db.jobs && db'.jobs[id] == db.jobs[id])
            && (forall id :: id in db.jobs ==>
                  (id !in db'.jobs <==>
                   (db.jobs[id].status == Succeeded || db.jobs[id].status == Dead)
                   && db.jobs[id].completedAt + 30 * DAY < db.now))
  {
  }

  /** A job is added under a new ID unless its key keeps it out, and is due after the delay. */
  lemma EnqueueAdds(s: State, id: int, kind: Kind, entity: int, key: Option<string>, max: int, delay: nat)
    ensures var s' := Next(s, Enqueue(id, kind, entity, key, max, delay));
            if max > 0 && id !in s.db.issued && kind != Analyze && KeyFree(s.db, key)
            then s' == s.(db := s.db.(
                            jobs := s.db.jobs[id :=
                              Job(kind, entity, key, Queued, 0, max, s.db.now + delay, s.db.now, 0)],
                            issued := s.db.issued + {id}))
            else s' == s
  {
  }

  /** A deletion that is asked for again moves to the new time, and one that is cancelled while queued is dead now. */
  lemma DeletionMoves(s: State, id: int, at: int)
    ensures Next(s, Reschedule(id, at)) ==
            if id in s.db.jobs && s.db.jobs[id].kind == DeleteAccount && Unfinished(s.db.jobs[id]) && at >= s.db.now
            then s.(db := s.db.(jobs := s.db.jobs[id := s.db.jobs[id].(availableAt := at)])) else s
    ensures Next(s, CancelDeletion(id)) ==
            if id in s.db.jobs && s.db.jobs[id].kind == DeleteAccount && s.db.jobs[id].status == Queued
            then s.(db := s.db.(jobs := s.db.jobs[id := s.db.jobs[id].(status := Dead, completedAt := s.db.now)]))
            else s
  {
  }

  /** A key keeps a job out exactly while a queued or running job carries it; a job without a key is never kept out. */
  lemma KeyKeepsOut(db: Db, key: Option<string>)
    ensures !KeyFree(db, key) <==>
            key.Some? && exists i :: i in db.jobs && db.jobs[i].dedupe == key && Unfinished(db.jobs[i])
  {
    if !KeyFree(db, key) {
      var i :| i in db.jobs && Duplicate(db.jobs, key, i);
      assert db.jobs[i].dedupe == key && Unfinished(db.jobs[i]);
    } else {
      assert forall i :: i in db.jobs ==> !Duplicate(db.jobs, key, i);
    }
  }

  predicate Unfinished(j: Job) { j.status != Succeeded && j.status != Dead }

  // ----- a failed job waits -----

  /** The job is queued until then after `attempts` attempts, or has ended; an ID is never given out again. */
  predicate Resting(db: Db, id: int, attempts: int, until: int) {
    && id in db.issued
    && (id in db.jobs ==>
          && db.jobs[id].attempts == attempts
          && ((db.jobs[id].status == Queued && db.jobs[id].availableAt >= until) || Terminal(db.jobs[id])))
  }

  /** The deletion of the account is moved to another time. */
  predicate Postponed(e: Event, id: int) { e.Reschedule? && e.id == id }

  lemma RestStep(s: State, e: Event, id: int, attempts: int, until: int)
    requires Inv(s) && Resting(s.db, id, attempts, until) && s.db.now < until && !Postponed(e, id)
    ensures Resting(Next(s, e).db, id, attempts, until)
    ensures e.ClaimNext? && e.pick == id ==> !Enabled(s, e)
  {
    if id in s.db.jobs && e.ClaimNext? {
      assert Recover(s.db, s.staleAfter).jobs[id] == RecoveredJob(s.db.jobs[id], s.db.now, s.staleAfter);
    }
  }

  lemma {:induction false} RestRun(s: State, events: seq<Event>, id: int, attempts: int, until: int)
    requires Inv(s) && Resting(s.db, id, attempts, until) && Run(s, events).db.now < until
    requires forall i :: 0 <= i < |events| ==> !Postponed(events[i], id)
    ensures Resting(Run(s, events).db, id, attempts, until)
    ensures forall i, w :: 0 <= i < |events| && events[i] == ClaimNext(w, id) ==>
              !Enabled(Run(s, events[..i]), events[i])
  {
    if events != [] {
      var n := |events| - 1;
      var front, e := events[..n], events[n];
      ClockForward(Run(s, front), e);
      RestRun(s, front, id, attempts, until);
      RunKeepsInv(s, front);
      RestStep(Run(s, front), e, id, attempts, until);
      forall i, w | 0 <= i < |events| && events[i] == ClaimNext(w, id)
        ensures !Enabled(Run(s, events[..i]), events[i])
      {
        if i < n {
          assert front[i] == events[i] && front[..i] == events[..i];
        }
      }
    }
  }

  /**
   * Over every run after a failed attempt that was not the last: until the wait that the
   * attempt calls for is over, no claim of the job succeeds and its attempts stay as they
   * are, unless it is the deletion of an account and moved to another time.
   */
  lemma FailureWaits(s: State, w: int, events: seq<Event>)
    requires Inv(s) && w in s.workers && s.workers[w].Routed? && LockedBy(s.db, s.workers[w].claim.job, w)
    requires var id := s.workers[w].claim.job;
             && s.db.jobs[id].attempts < s.db.jobs[id].maxAttempts
             && (forall i :: 0 <= i < |events| ==> !Postponed(events[i], id))
             && Run(Next(s, GiveUp(w)), events).db.now < s.db.now + RetryWait(s.db.jobs[id].attempts)
    ensures var (id, failed) := (s.workers[w].claim.job, Next(s, GiveUp(w)));
            && (id in Run(failed, events).db.jobs ==>
                  && Run(failed, events).db.jobs[id].attempts == s.db.jobs[id].attempts
                  && !Run(failed, events).db.jobs[id].status.Running?)
            && forall i, v :: 0 <= i < |events| && events[i] == ClaimNext(v, id) ==>
                 !Enabled(Run(failed, events[..i]), events[i])
  {
    var c := s.workers[w].claim;
    assert Believes(s.db, w, c);
    FailAnswers(s.db, c, w);
    StepKeepsInv(s, GiveUp(w));
    RestRun(Next(s, GiveUp(w)), events, c.job, c.attempts, s.db.now + RetryWait(c.attempts));
  }

  /** And when it is over, the job is ready, if nothing else has happened to it. */
  lemma ReadyAfterWait(s: State, w: int, elapsed: nat)
    requires Inv(s) && w in s.workers && s.workers[w].Routed? && LockedBy(s.db, s.workers[w].claim.job, w)
    requires s.db.jobs[s.workers[w].claim.job].attempts < s.db.jobs[s.workers[w].claim.job].maxAttempts
    ensures var (id, later) := (s.workers[w].claim.job, Next(Next(s, GiveUp(w)), Tick(elapsed)));
            Ready(later.db.jobs[id], later.db.now, later.staleAfter) <==>
            elapsed >= RetryWait(s.db.jobs[id].attempts)
  {
    var c := s.workers[w].claim;
    assert Believes(s.db, w, c);
    FailAnswers(s.db, c, w);
  }
}
