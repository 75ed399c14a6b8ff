/**
 * Several workers and the API on one queue (internal/worker/worker.go,
 * internal/store/jobs.go, internal/store/analysis.go): every transaction is one
 * event, and events of different workers interleave freely.
 */
module Workers {
  import opened Prelude
  import opened Submissions
  import opened Jobs

  /** Where a worker is between two transactions of its loop. */
  datatype Phase =
    | Idle
    | Handling(claim: Claim)   // inside `handle`
    | Handled(claim: Claim)    // `handle` returned a result
    | Failing(claim: Claim)    // `handle` returned an error
    | Routed(claim: Claim)     // the error has been routed to manual review if it was the last

  datatype State = State(db: Db, workers: map<int, Phase>, staleAfter: nat)

  datatype Event =
    | Tick(elapsed: nat)
    | Enqueue(id: int, kind: Kind, entity: int, key: Option<string>, maxAttempts: int, delay: nat)
    | Reschedule(id: int, availableAt: int)
    | CancelDeletion(id: int)
    | Submit(submission: int, challenge: int, user: int, media: int, id: int, key: Option<string>)
    | Verify(submission: int, verification: Verification)
    | ClaimNext(worker: int, pick: int)
    | Decide(worker: int, verification: Verification, moderation: Moderation)
    | Return(worker: int)
    | Raise(worker: int)
    | Route(worker: int)
    | Finish(worker: int)
    | GiveUp(worker: int)
    | Crash(worker: int)
    | Purge

  function PhaseOf(s: State, w: int): Phase {
    if w in s.workers then s.workers[w] else Idle
  }

  function At(s: State, db: Db, w: int, phase: Phase): State {
    s.(db := db, workers := s.workers[w := phase])
  }

  /** `handleErr` on the last attempt of an analysis sends the submission to manual review. */
  function RouteError(db: Db, c: Claim): Db {
    if c.attempts >= c.maxAttempts && c.kind == Analyze then Analysis(db, c.entity, ManualReview, Unmoderated).0 else db
  }

  /** No active job carries the key: the unique index admits a new one. */
  predicate KeyFree(db: Db, key: Option<string>) {
    forall i :: i in db.jobs ==> !Duplicate(db.jobs, key, i)
  }

  /** Events that are not possible in `s` change nothing. */
  ghost predicate Enabled(s: State, e: Event) {
    match e
    case Enqueue(id, kind, _, key, max, _) =>
      max > 0 && id !in s.db.issued && kind != Analyze && KeyFree(s.db, key)
    case Reschedule(id, at) =>
      id in s.db.jobs && Active(s.db.jobs[id]) && s.db.jobs[id].kind == DeleteAccount && at >= s.db.now
    case CancelDeletion(id) =>
      id in s.db.jobs && s.db.jobs[id].status.Queued? && s.db.jobs[id].kind == DeleteAccount
    case Submit(sub, _, _, _, id, key) =>
      sub !in s.db.submissions && id !in s.db.issued && KeyFree(s.db, key)
    case Verify(sub, v) => sub in s.db.submissions && v != Unverified
    case ClaimNext(w, pick) => PhaseOf(s, w).Idle? && First(Recover(s.db, s.staleAfter), pick)
    case Decide(w, v, _) => PhaseOf(s, w).Handling? && PhaseOf(s, w).claim.kind == Analyze && v != Unverified
    case Return(w) => PhaseOf(s, w).Handling? && PhaseOf(s, w).claim.kind != Analyze
    case Raise(w) => PhaseOf(s, w).Handling?
    case Route(w) => PhaseOf(s, w).Failing?
    case Finish(w) => PhaseOf(s, w).Handled?
    case GiveUp(w) => PhaseOf(s, w).Routed?
    case _ => true
  }

  ghost function Next(s: State, e: Event): State
  {
    if !Enabled(s, e) then s else
    match e
    case Tick(elapsed) => s.(db := s.db.(now := s.db.now + elapsed))
    case Enqueue(id, kind, entity, key, max, delay) =>
      s.(db := Insert(s.db, id, NewJob(kind, entity, key, max, s.db.now).(availableAt := s.db.now + delay)))
    case Reschedule(id, at) => s.(db := s.db.(jobs := s.db.jobs[id := s.db.jobs[id].(availableAt := at)]))
    case CancelDeletion(id) =>
      s.(db := s.db.(jobs := s.db.jobs[id := s.db.jobs[id].(status := Dead, completedAt := s.db.now)]))
    case Submit(sub, challenge, user, media, id, key) =>
      s.(db := Insert(s.db, id, NewJob(Analyze, sub, key, 5, s.db.now)).(
           submissions := s.db.submissions[sub := NewSubmission(challenge, user, media)]))
    case Verify(sub, v) =>
      s.(db := s.db.(submissions := s.db.submissions[sub := Verified(s.db.submissions[sub], v, s.db.now)]))
    case ClaimNext(w, pick) =>
      var (db, c) := Claimed(Recover(s.db, s.staleAfter), pick, w);
      At(s, db, w, Handling(c))
    case Decide(w, v, m) =>
      var c := PhaseOf(s, w).claim;
      var (db, error) := Analysis(s.db, c.entity, v, m);
      At(s, db, w, if error.None? then Handled(c) else Failing(c))
    case Return(w) => At(s, s.db, w, Handled(PhaseOf(s, w).claim))
    case Raise(w) => At(s, s.db, w, Failing(PhaseOf(s, w).claim))
    case Route(w) => At(s, RouteError(s.db, PhaseOf(s, w).claim), w, Routed(PhaseOf(s, w).claim))
    case Finish(w) => At(s, Complete(s.db, PhaseOf(s, w).claim.job, w).0, w, Idle)
    case GiveUp(w) => At(s, Fail(s.db, PhaseOf(s, w).claim, w).0, w, Idle)
    case Crash(w) => At(s, s.db, w, Idle)
    case Purge => s.(db := Cleanup(s.db))
  }

  ghost function Run(s: State, events: seq<Event>): State {
    if events == [] then s else Next(Run(s, events[..|events| - 1]), events[|events| - 1])
  }

  // ----- the invariant -----

  /** A job never runs more often than allowed, and a queued job has an attempt left. */
  predicate SoundJob(j: Job, now: int) {
    && 0 <= j.attempts <= j.maxAttempts && j.maxAttempts > 0
    && (j.status.Queued? ==> j.attempts < j.maxAttempts)
    && (j.status.Running? ==> j.attempts > 0 && j.status.lockedAt <= now)
  }

  ghost predicate SoundJobs(s: State) {
    && (forall id :: id in s.db.jobs ==> SoundJob(s.db.jobs[id], s.db.now) && id in s.db.issued)
    && (forall id :: id in s.db.jobs && s.db.jobs[id].kind == Analyze ==> s.db.jobs[id].entity in s.db.submissions)
  }

  /** What a worker believes about its job: the fixed columns, and, while it holds the lease, the attempt. */
  predicate Believes(db: Db, w: int, c: Claim) {
    && c.job in db.issued && 0 < c.attempts <= c.maxAttempts
    && (c.kind == Analyze ==> c.entity in db.submissions)
    && (c.job in db.jobs ==>
          && db.jobs[c.job].kind == c.kind && db.jobs[c.job].entity == c.entity
          && db.jobs[c.job].maxAttempts == c.maxAttempts && c.attempts <= db.jobs[c.job].attempts
          && (LockedBy(db, c.job, w) ==> db.jobs[c.job].attempts == c.attempts))
  }

  ghost predicate Fenced(s: State) {
    forall w :: w in s.workers && !s.workers[w].Idle? ==> Believes(s.db, w, s.workers[w].claim)
  }

  predicate Pending(db: Db, sub: int) {
    sub in db.submissions && db.submissions[sub].verification == Unverified
  }

  predicate AnalyzesNow(db: Db, id: int, sub: int) {
    id in db.jobs && db.jobs[id].kind == Analyze && db.jobs[id].entity == sub && Active(db.jobs[id])
  }

  /** About to bury an analysis job. */
  predicate GaveUp(p: Phase) {
    p.Routed? && p.claim.kind == Analyze && p.claim.attempts >= p.claim.maxAttempts
  }

  /** No submission is stranded, and whoever is about to end an analysis job has decided its submission. */
  ghost predicate NotStranded(s: State) {
    && (forall sub :: Pending(s.db, sub) ==> exists id :: AnalyzesNow(s.db, id, sub))
    && (forall w :: w in s.workers && s.workers[w].Handled? && s.workers[w].claim.kind == Analyze ==>
          !Pending(s.db, s.workers[w].claim.entity))
    && (forall w :: w in s.workers && GaveUp(s.workers[w]) ==> !Pending(s.db, s.workers[w].claim.entity))
    && (forall id :: id in s.db.jobs && s.db.jobs[id].kind == Analyze && Terminal(s.db.jobs[id]) ==>
          !Pending(s.db, s.db.jobs[id].entity))
  }

  /** At most one active job carries a key. */
  ghost predicate UniqueKeys(db: Db) {
    forall i, j :: i in db.jobs && Active(db.jobs[i]) && Duplicate(db.jobs, db.jobs[i].dedupe, j) ==> i == j
  }

  ghost predicate Inv(s: State) {
    SoundJobs(s) && Fenced(s) && NotStranded(s) && UniqueKeys(s.db)
  }

  lemma StepSoundJob(s: State, e: Event, id: int)
    requires Inv(s) && id in Next(s, e).db.jobs
    ensures SoundJob(Next(s, e).db.jobs[id], Next(s, e).db.now)
  {
    if id in s.db.jobs {
      assert SoundJob(s.db.jobs[id], s.db.now);
      if Enabled(s, e) && e.GiveUp? {
        assert Believes(s.db, e.worker, s.workers[e.worker].claim);
      }
    }
  }

  lemma StepSoundEntity(s: State, e: Event, id: int)
    requires Inv(s) && id in Next(s, e).db.jobs
    ensures id in Next(s, e).db.issued
    ensures Next(s, e).db.jobs[id].kind == Analyze ==> Next(s, e).db.jobs[id].entity in Next(s, e).db.submissions
  {
  }

  lemma StepSound(s: State, e: Event)
    requires Inv(s)
    ensures SoundJobs(Next(s, e))
  {
    forall id | id in Next(s, e).db.jobs
      ensures SoundJob(Next(s, e).db.jobs[id], Next(s, e).db.now) && id in Next(s, e).db.issued
      ensures Next(s, e).db.jobs[id].kind == Analyze ==> Next(s, e).db.jobs[id].entity in Next(s, e).db.submissions
    {
      StepSoundJob(s, e, id);
      StepSoundEntity(s, e, id);
    }
  }

  lemma ClaimBelieves(s: State, e: Event, w: int)
    requires Inv(s) && e.ClaimNext? && Enabled(s, e)
    requires w in Next(s, e).workers && !Next(s, e).workers[w].Idle?
    ensures Believes(Next(s, e).db, w, Next(s, e).workers[w].claim)
  {
    if w != e.worker {
      assert Believes(s.db, w, s.workers[w].claim);
    }
    var recovered := Recover(s.db, s.staleAfter);
    assert recovered.jobs[e.pick] == RecoveredJob(s.db.jobs[e.pick], s.db.now, s.staleAfter);
  }

  /** A worker's own statements, other than a claim, leave what every worker believes true. */
  lemma OwnBelieves(s: State, e: Event, w: int)
    requires Inv(s) && (e.Decide? || e.Return? || e.Raise? || e.Route? || e.Finish? || e.GiveUp? || e.Crash?)
    requires w in Next(s, e).workers && !Next(s, e).workers[w].Idle?
    ensures Believes(Next(s, e).db, w, Next(s, e).workers[w].claim)
  {
    assert w in s.workers && !s.workers[w].Idle? && Next(s, e).workers[w].claim == s.workers[w].claim;
    assert Believes(s.db, w, s.workers[w].claim);
  }

  lemma StepBelieves(s: State, e: Event, w: int)
    requires Inv(s) && w in Next(s, e).workers && !Next(s, e).workers[w].Idle?
    ensures Believes(Next(s, e).db, w, Next(s, e).workers[w].claim)
  {
    if Enabled(s, e) && e.ClaimNext? {
      ClaimBelieves(s, e, w);
    } else if e.Decide? || e.Return? || e.Raise? || e.Route? || e.Finish? || e.GiveUp? || e.Crash? {
      OwnBelieves(s, e, w);
    } else {
      assert Next(s, e).workers == s.workers;
      assert Believes(s.db, w, s.workers[w].claim);
    }
  }

  lemma StepFenced(s: State, e: Event)
    requires Inv(s)
    ensures Fenced(Next(s, e))
  {
    var s' := Next(s, e);
    forall w | w in s'.workers && !s'.workers[w].Idle?
      ensures Believes(s'.db, w, s'.workers[w].claim)
    {
      StepBelieves(s, e, w);
    }
  }

  lemma StepUnique(s: State, e: Event)
    requires Inv(s)
    ensures UniqueKeys(Next(s, e).db)
  {
    var s' := Next(s, e);
    forall i, j | i in s'.db.jobs && Active(s'.db.jobs[i]) && Duplicate(s'.db.jobs, s'.db.jobs[i].dedupe, j)
      ensures i == j
    {
      if i in s.db.jobs && j in s.db.jobs {
        StepKeepsKey(s, e, i);
        StepKeepsKey(s, e, j);
        assert Duplicate(s.db.jobs, s.db.jobs[i].dedupe, j);
      } else if i in s.db.jobs {
        assert !Duplicate(s.db.jobs, e.key, i);
        StepKeepsKey(s, e, i);
      } else if j in s.db.jobs {
        assert !Duplicate(s.db.jobs, e.key, j);
        StepKeepsKey(s, e, j);
      }
    }
  }

  lemma StepKeepsKey(s: State, e: Event, i: int)
    requires i in s.db.jobs && i in Next(s, e).db.jobs && Active(Next(s, e).db.jobs[i])
    requires Inv(s)
    ensures Next(s, e).db.jobs[i].dedupe == s.db.jobs[i].dedupe && Active(s.db.jobs[i])
  {
    if Enabled(s, e) && e.ClaimNext? {
      assert Recover(s.db, s.staleAfter).jobs[i] == RecoveredJob(s.db.jobs[i], s.db.now, s.staleAfter);
    }
  }

  /** An analysis job that stays active keeps its submission from being stranded; only these end one. */
  lemma {:induction false} StepNotStranded(s: State, e: Event)
    requires Inv(s)
    ensures NotStranded(Next(s, e))
  {
    var s' := Next(s, e);
    forall sub | Pending(s'.db, sub)
      ensures exists id :: AnalyzesNow(s'.db, id, sub)
    {
      if Pending(s.db, sub) {
        var id :| AnalyzesNow(s.db, id, sub);
        StaysActive(s, e, id, sub);
        assert AnalyzesNow(s'.db, id, sub);
      } else {
        assert e.Submit? && AnalyzesNow(s'.db, e.id, sub);
      }
    }
    TerminalDecided(s, e);
  }

  /** While its submission is pending, an active analysis job stays active. */
  lemma StaysActive(s: State, e: Event, id: int, sub: int)
    requires Inv(s) && Pending(s.db, sub) && Pending(Next(s, e).db, sub) && AnalyzesNow(s.db, id, sub)
    ensures AnalyzesNow(Next(s, e).db, id, sub)
  {
    if Enabled(s, e) {
      if e.Finish? || e.GiveUp? {
        assert Believes(s.db, e.worker, s.workers[e.worker].claim);
      } else if e.ClaimNext? {
        assert Recover(s.db, s.staleAfter).jobs[id] == RecoveredJob(s.db.jobs[id], s.db.now, s.staleAfter);
      }
    }
  }

  lemma PendingShrinks(s: State, e: Event, sub: int)
    requires sub in s.db.submissions && !Pending(s.db, sub)
    ensures !Pending(Next(s, e).db, sub)
  {}

  lemma HoldersDecided(s: State, e: Event, w: int)
    requires Inv(s) && w in Next(s, e).workers && !Next(s, e).workers[w].Idle?
    requires Next(s, e).workers[w].claim.kind == Analyze
    ensures var s' := Next(s, e);
            s'.workers[w].Handled? || GaveUp(s'.workers[w]) ==> !Pending(s'.db, s'.workers[w].claim.entity)
  {
    var s' := Next(s, e);
    if w in s.workers && !s.workers[w].Idle? {
      assert Believes(s.db, w, s.workers[w].claim);
      if !Pending(s.db, s'.workers[w].claim.entity) && s'.workers[w].claim == s.workers[w].claim {
        PendingShrinks(s, e, s'.workers[w].claim.entity);
      }
    }
  }

  lemma EndedDecided(s: State, e: Event, id: int)
    requires Inv(s) && id in Next(s, e).db.jobs
    requires Next(s, e).db.jobs[id].kind == Analyze && Terminal(Next(s, e).db.jobs[id])
    ensures !Pending(Next(s, e).db, Next(s, e).db.jobs[id].entity)
  {
    if Enabled(s, e) {
      if e.Finish? || e.GiveUp? {
        assert Believes(s.db, e.worker, s.workers[e.worker].claim);
      } else if e.ClaimNext? {
        assert Recover(s.db, s.staleAfter).jobs[id] == RecoveredJob(s.db.jobs[id], s.db.now, s.staleAfter);
      }
    }
  }

  lemma TerminalDecided(s: State, e: Event)
    requires Inv(s)
    ensures var s' := Next(s, e);
      && (forall w :: w in s'.workers && s'.workers[w].Handled? && s'.workers[w].claim.kind == Analyze ==>
            !Pending(s'.db, s'.workers[w].claim.entity))
      && (forall w :: w in s'.workers && GaveUp(s'.workers[w]) ==> !Pending(s'.db, s'.workers[w].claim.entity))
      && (forall id :: id in s'.db.jobs && s'.db.jobs[id].kind == Analyze && Terminal(s'.db.jobs[id]) ==>
            !Pending(s'.db, s'.db.jobs[id].entity))
  {
    var s' := Next(s, e);
    forall w | w in s'.workers && !s'.workers[w].Idle? && s'.workers[w].claim.kind == Analyze
      ensures s'.workers[w].Handled? || GaveUp(s'.workers[w]) ==> !Pending(s'.db, s'.workers[w].claim.entity)
    {
      HoldersDecided(s, e, w);
    }
    forall id | id in s'.db.jobs && s'.db.jobs[id].kind == Analyze && Terminal(s'.db.jobs[id])
      ensures !Pending(s'.db, s'.db.jobs[id].entity)
    {
      EndedDecided(s, e, id);
    }
  }

  lemma StepKeepsInv(s: State, e: Event)
    requires Inv(s)
    ensures Inv(Next(s, e))
  {
    StepSound(s, e);
    StepFenced(s, e);
    StepUnique(s, e);
    StepNotStranded(s, e);
  }

  lemma {:induction false} RunKeepsInv(s: State, events: seq<Event>)
    requires Inv(s)
    ensures Inv(Run(s, events))
  {
    if events != [] {
      RunKeepsInv(s, events[..|events| - 1]);
      StepKeepsInv(Run(s, events[..|events| - 1]), events[|events| - 1]);
    }
  }

  // ----- no stranded submission -----

  predicate Initial(s: State) {
    s.db.jobs == map[] && s.db.submissions == map[] && s.workers == map[]
  }

  /**
   * However workers interleave, crash or outlive their leases, every pending submission
   * has its analysis job queued or running, so a dead analysis job has left its
   * submission decided or in manual review.
   */
  lemma NoStrandedSubmission(s: State, events: seq<Event>)
    requires Initial(s)
    ensures var db := Run(s, events).db;
            && (forall sub :: Pending(db, sub) ==> exists id :: AnalyzesNow(db, id, sub))
            && (forall id :: id in db.jobs && db.jobs[id].kind == Analyze && Terminal(db.jobs[id]) ==>
                  db.jobs[id].entity in db.submissions && db.submissions[db.jobs[id].entity].verification != Unverified)
  {
    RunKeepsInv(s, events);
  }

  /** The step that buries an analysis job, by lease expiry too, leaves a pending submission in manual review. */
  lemma {:induction false} ExhaustionMeansManualReview(s: State, e: Event, id: int)
    requires Inv(s)
    requires id in s.db.jobs && s.db.jobs[id].kind == Analyze && Active(s.db.jobs[id])
    requires id in Next(s, e).db.jobs && Next(s, e).db.jobs[id].status.Dead?
    ensures var (sub, s') := (s.db.jobs[id].entity, Next(s, e));
            && sub in s'.db.submissions
            && (if Pending(s.db, sub) then s'.db.submissions[sub] == Abandoned(s.db.submissions[sub])
                else !Pending(s'.db, sub))
  {
    if e.GiveUp? {
      assert Believes(s.db, e.worker, s.workers[e.worker].claim);
    } else if e.ClaimNext? {
      assert Recover(s.db, s.staleAfter).jobs[id] == RecoveredJob(s.db.jobs[id], s.db.now, s.staleAfter);
    }
  }

  // ----- lease fencing -----

  /** Two workers never hold the same attempt of a job. */
  ghost predicate DistinctAttempts(s: State) {
    forall w, v :: w in s.workers && v in s.workers && w != v && !s.workers[w].Idle? && !s.workers[v].Idle?
                   && s.workers[w].claim.job == s.workers[v].claim.job ==>
      s.workers[w].claim.attempts != s.workers[v].claim.attempts
  }

  lemma StepDistinct(s: State, e: Event)
    requires Inv(s) && DistinctAttempts(s)
    ensures DistinctAttempts(Next(s, e))
  {
    if Enabled(s, e) && e.ClaimNext? {
      forall w | w in s.workers && !s.workers[w].Idle?
        ensures Believes(s.db, w, s.workers[w].claim)
      {}
      assert Recover(s.db, s.staleAfter).jobs[e.pick] == RecoveredJob(s.db.jobs[e.pick], s.db.now, s.staleAfter);
    }
  }

  lemma {:induction false} RunDistinct(s: State, events: seq<Event>)
    requires Inv(s) && DistinctAttempts(s)
    ensures DistinctAttempts(Run(s, events))
  {
    if events != [] {
      RunDistinct(s, events[..|events| - 1]);
      RunKeepsInv(s, events[..|events| - 1]);
      StepDistinct(Run(s, events[..|events| - 1]), events[|events| - 1]);
    }
  }

  /** The wait after a failed attempt: 2, 4, 8, 16, 32, 64 and 128 seconds, and 256 from the eighth on. */
  function RetryWait(attempt: int): int {
    match attempt
    case 1 => 2 * SECOND
    case 2 => 4 * SECOND
    case 3 => 8 * SECOND
    case 4 => 16 * SECOND
    case 5 => 32 * SECOND
    case 6 => 64 * SECOND
    case 7 => 128 * SECOND
    case _ => 256 * SECOND
  }

  lemma BackoffIsRetryWait(attempt: int)
    requires attempt >= 1
    ensures Backoff(attempt) == RetryWait(attempt)
  {
    assert Pow2(1) == 2 && Pow2(2) == 4 && Pow2(3) == 8 && Pow2(4) == 16;
    assert Pow2(5) == 32 && Pow2(6) == 64 && Pow2(7) == 128 && Pow2(8) == 256;
  }

  /**
   * What the lease holder may do: complete the job, or fail it, which buries it now on its
   * last attempt, and otherwise queues it to be due after the wait that the attempt calls for.
   */
  predicate HolderDecides(db: Db, w: int, c: Claim)
    requires LockedBy(db, c.job, w)
  {
    var (done, failed) := (Complete(db, c.job, w).0.jobs[c.job], Fail(db, c, w).0.jobs[c.job]);
    && db.jobs[c.job].attempts == c.attempts
    && done == db.jobs[c.job].(status := Succeeded, completedAt := db.now)
    && failed == db.jobs[c.job].(status := failed.status, availableAt := db.now + RetryWait(c.attempts),
                                 completedAt := failed.completedAt)
    && (if db.jobs[c.job].attempts >= db.jobs[c.job].maxAttempts
        then failed.status == Dead && failed.completedAt == db.now
        else failed.status == Queued && failed.completedAt == 0)
  }

  /**
   * Fencing, over every run: while a worker holds the lease of its job, the row shows
   * exactly the attempt it claimed, and its verdict is the one the row calls for; an
   * attempt belongs to one worker; and completing or failing without the lease is a
   * conflict that changes nothing.
   */
  lemma LeaseFencing(s: State, events: seq<Event>, w: int)
    requires Initial(s)
    requires w in Run(s, events).workers && !Run(s, events).workers[w].Idle?
    ensures var end := Run(s, events);
            var c := end.workers[w].claim;
            && (LockedBy(end.db, c.job, w) ==> HolderDecides(end.db, w, c))
            && (!LockedBy(end.db, c.job, w) ==>
                  && Complete(end.db, c.job, w) == (end.db, Some(Conflict))
                  && Fail(end.db, c, w) == (end.db, Some(Conflict)))
            && (forall v :: v in end.workers && v != w && !end.workers[v].Idle? && end.workers[v].claim.job == c.job ==>
                  end.workers[v].claim.attempts != c.attempts)
  {
    RunKeepsInv(s, events);
    RunDistinct(s, events);
    assert Believes(Run(s, events).db, w, Run(s, events).workers[w].claim);
    BackoffIsRetryWait(Run(s, events).workers[w].claim.attempts);
  }

  /** No job ever exceeds its attempts or is queued without one, and no two active jobs share a key. */
  lemma AttemptsBounded(s: State, events: seq<Event>)
    requires Initial(s)
    ensures var db := Run(s, events).db;
            (forall id :: id in db.jobs ==> SoundJob(db.jobs[id], db.now)) && UniqueKeys(db)
  {
    RunKeepsInv(s, events);
  }

  lemma StepKeepsTerminal(s: State, e: Event, id: int)
    requires Inv(s) && id in s.db.jobs && Terminal(s.db.jobs[id])
    ensures id in Next(s, e).db.jobs ==> Next(s, e).db.jobs[id] == s.db.jobs[id]
  {
    if Enabled(s, e) && e.ClaimNext? {
      assert Recover(s.db, s.staleAfter).jobs[id] == RecoveredJob(s.db.jobs[id], s.db.now, s.staleAfter);
    }
  }

  lemma StepKeepsIssued(s: State, e: Event, id: int)
    requires id in s.db.issued
    ensures id in Next(s, e).db.issued && (id !in s.db.jobs ==> id !in Next(s, e).db.jobs)
  {
  }

  /** A finished job never changes; it can only be purged. */
  lemma {:induction false} TerminalForever(s: State, events: seq<Event>, id: int)
    requires Inv(s) && id in s.db.jobs && Terminal(s.db.jobs[id])
    ensures id in Run(s, events).db.jobs ==> Run(s, events).db.jobs[id] == s.db.jobs[id]
    ensures id in Run(s, events).db.issued
  {
    if events != [] {
      var mid, e := Run(s, events[..|events| - 1]), events[|events| - 1];
      TerminalForever(s, events[..|events| - 1], id);
      RunKeepsInv(s, events[..|events| - 1]);
      StepKeepsIssued(mid, e, id);
      if id in mid.db.jobs {
        StepKeepsTerminal(mid, e, id);
      }
    }
  }

  // ----- termination -----

  /** Twice the attempts left, plus one while running; nothing once finished. */
  function Effort(j: Job): nat {
    if Terminal(j) || j.attempts > j.maxAttempts then 0
    else 2 * (j.maxAttempts - j.attempts) + if j.status.Running? then 1 else 0
  }

  ghost function Total(jobs: map<int, Job>): nat {
    if jobs.Keys == {} then 0
    else
      var id := Least(jobs.Keys);
      Effort(jobs[id]) + Total(jobs - {id})
  }

  ghost function Least(ids: set<int>): (id: int)
    requires ids != {}
    ensures id in ids
  {
    Inhabited(ids);
    var id :| id in ids;
    id
  }

  lemma {:induction false} TotalWithout(jobs: map<int, Job>, id: int)
    requires id in jobs
    ensures Total(jobs) == Effort(jobs[id]) + Total(jobs - {id})
    decreases |jobs.Keys|
  {
    var first := Least(jobs.Keys);
    if first != id {
      assert (jobs - {first}).Keys == jobs.Keys - {first};
      TotalWithout(jobs - {first}, id);
      assert (jobs - {id}).Keys == jobs.Keys - {id};
      TotalWithout(jobs - {id}, first);
      assert jobs - {first} - {id} == jobs - {id} - {first};
    }
  }

  lemma TotalLeftOut(jobs: map<int, Job>, id: int)
    ensures Total(jobs) == Total(jobs - {id}) + if id in jobs then Effort(jobs[id]) else 0
  {
    if id in jobs {
      TotalWithout(jobs, id);
    } else {
      assert jobs - {id} == jobs;
    }
  }

  /** Lowering the effort of every job lowers the total, and strictly if one job's is lowered. */
  lemma {:induction false} TotalMonotone(jobs: map<int, Job>, jobs': map<int, Job>, spent: set<int>)
    requires jobs'.Keys <= jobs.Keys && spent <= jobs.Keys
    requires forall id :: id in jobs' ==> Effort(jobs'[id]) + (if id in spent then 1 else 0) <= Effort(jobs[id])
    requires forall id :: id in spent ==> id in jobs'
    ensures Total(jobs') + |spent| <= Total(jobs)
    decreases |jobs.Keys|
  {
    if jobs.Keys != {} {
      var id := Least(jobs.Keys);
      assert (jobs - {id}).Keys == jobs.Keys - {id};
      assert (jobs' - {id}).Keys == jobs'.Keys - {id};
      TotalMonotone(jobs - {id}, jobs' - {id}, spent - {id});
      TotalLeftOut(jobs', id);
      assert id !in spent ==> spent - {id} == spent;
    } else {
      assert spent == {};
    }
  }

  /** The jobs that an event moves: by a claim, with its recoveries, or by finishing, failing or cancelling. */
  ghost function Moved(s: State, e: Event): set<int> {
    if !Enabled(s, e) then {} else
    match e
    case ClaimNext(_, pick) => {pick} + set id | id in s.db.jobs && Stale(s.db.jobs[id], s.db.now, s.staleAfter)
    case Finish(w) => if LockedBy(s.db, PhaseOf(s, w).claim.job, w) then {PhaseOf(s, w).claim.job} else {}
    case GiveUp(w) => if LockedBy(s.db, PhaseOf(s, w).claim.job, w) then {PhaseOf(s, w).claim.job} else {}
    case CancelDeletion(id) => {id}
    case _ => {}
  }

  predicate AddsJob(e: Event) { e.Enqueue? || e.Submit? }

  lemma MoveSpends(s: State, e: Event, id: int)
    requires Inv(s) && !AddsJob(e) && id in Next(s, e).db.jobs
    ensures id in s.db.jobs
    ensures Effort(Next(s, e).db.jobs[id]) + (if id in Moved(s, e) then 1 else 0) <= Effort(s.db.jobs[id])
  {
    assert SoundJob(s.db.jobs[id], s.db.now);
    if Enabled(s, e) && e.ClaimNext? {
      assert Recover(s.db, s.staleAfter).jobs[id] == RecoveredJob(s.db.jobs[id], s.db.now, s.staleAfter);
    } else if Enabled(s, e) && e.GiveUp? {
      assert Believes(s.db, e.worker, s.workers[e.worker].claim);
    }
  }

  lemma MovedStay(s: State, e: Event)
    requires Inv(s)
    ensures Moved(s, e) <= s.db.jobs.Keys && Moved(s, e) <= Next(s, e).db.jobs.Keys
  {
  }

  /** Every move spends effort of the job it moves, and nothing but a new job adds any. */
  lemma {:induction false} MoveSpendsEffort(s: State, e: Event)
    requires Inv(s) && !AddsJob(e)
    ensures Total(Next(s, e).db.jobs) + |Moved(s, e)| <= Total(s.db.jobs)
  {
    var jobs', spent := Next(s, e).db.jobs, Moved(s, e);
    MovedStay(s, e);
    forall id | id in jobs'
      ensures id in s.db.jobs
      ensures Effort(jobs'[id]) + (if id in spent then 1 else 0) <= Effort(s.db.jobs[id])
    {
      MoveSpends(s, e, id);
    }
    assert jobs'.Keys <= s.db.jobs.Keys;
    TotalMonotone(s.db.jobs, jobs', spent);
  }

  ghost function MoveCount(s: State, events: seq<Event>): nat {
    if events == [] then 0
    else MoveCount(s, events[..|events| - 1]) + |Moved(Run(s, events[..|events| - 1]), events[|events| - 1])|
  }

  /** Without new jobs, a run moves jobs at most as often as their total effort allows. */
  lemma {:induction false} MovesAreBounded(s: State, events: seq<Event>)
    requires Inv(s) && forall i :: 0 <= i < |events| ==> !AddsJob(events[i])
    ensures MoveCount(s, events) + Total(Run(s, events).db.jobs) <= Total(s.db.jobs)
  {
    if events != [] {
      MovesAreBounded(s, events[..|events| - 1]);
      RunKeepsInv(s, events[..|events| - 1]);
      MoveSpendsEffort(Run(s, events[..|events| - 1]), events[|events| - 1]);
    }
  }

  // ----- bounded overtaking -----

  /** The queued jobs that come no later than `id` in the claim order, itself included. */
  ghost function Ahead(db: Db, id: int): set<int>
    requires id in db.jobs
  {
    set i | i in db.jobs && db.jobs[i].status.Queued? && NoLater(db.jobs[i], db.jobs[id])
  }

  predicate Overdue(db: Db, id: int) {
    id in db.jobs && db.jobs[id].status.Queued? && db.jobs[id].availableAt < db.now
  }

  /** While an overdue job waits, nothing joins the jobs ahead of it, and every claim takes one of them. */
  lemma AheadShrinks(s: State, e: Event, id: int)
    requires Inv(s) && Overdue(s.db, id)
    requires id in Next(s, e).db.jobs && Next(s, e).db.jobs[id] == s.db.jobs[id]
    ensures Ahead(Next(s, e).db, id) <= Ahead(s.db, id)
    ensures Enabled(s, e) && e.ClaimNext? ==> |Ahead(Next(s, e).db, id)| < |Ahead(s.db, id)|
  {
    var s' := Next(s, e);
    var recovered := Recover(s.db, s.staleAfter);
    forall i | i in Ahead(s'.db, id)
      ensures i in Ahead(s.db, id)
    {
      if Enabled(s, e) {
        if e.GiveUp? {
          assert Believes(s.db, e.worker, s.workers[e.worker].claim);
        } else if e.ClaimNext? {
          assert recovered.jobs[i] == RecoveredJob(s.db.jobs[i], s.db.now, s.staleAfter);
        }
      }
    }
    if Enabled(s, e) && e.ClaimNext? {
      assert Claimable(recovered, id);
      assert recovered.jobs[e.pick] == RecoveredJob(s.db.jobs[e.pick], s.db.now, s.staleAfter);
      assert e.pick in Ahead(s.db, id) && e.pick !in Ahead(s'.db, id);
      SubsetSize(Ahead(s'.db, id), Ahead(s.db, id));
    }
  }

  /** The row of `id` stays as it is throughout the run. */
  ghost predicate Waits(s: State, events: seq<Event>, id: int)
    requires id in s.db.jobs
  {
    && id in Run(s, events).db.jobs && Run(s, events).db.jobs[id] == s.db.jobs[id]
    && (events != [] ==> Waits(s, events[..|events| - 1], id))
  }

  ghost function ClaimCount(s: State, events: seq<Event>): nat {
    if events == [] then 0
    else ClaimCount(s, events[..|events| - 1])
         + if Enabled(Run(s, events[..|events| - 1]), events[|events| - 1]) && events[|events| - 1].ClaimNext?
           then 1 else 0
  }

  lemma ClockForward(s: State, e: Event)
    ensures s.db.now <= Next(s, e).db.now
  {}

  /** While an overdue job waits, the claims that succeed are fewer than the jobs ahead of it, itself included. */
  lemma {:induction false} BoundedOvertaking(s: State, events: seq<Event>, id: int)
    requires Inv(s) && Overdue(s.db, id) && Waits(s, events, id)
    ensures ClaimCount(s, events) + |Ahead(Run(s, events).db, id)| <= |Ahead(s.db, id)|
    ensures ClaimCount(s, events) < |Ahead(s.db, id)|
    ensures Overdue(Run(s, events).db, id)
  {
    if events != [] {
      var front, e := events[..|events| - 1], events[|events| - 1];
      BoundedOvertaking(s, front, id);
      RunKeepsInv(s, front);
      var mid := Run(s, front);
      ClockForward(mid, e);
      AheadShrinks(mid, e, id);
      SubsetSize(Ahead(Next(mid, e).db, id), Ahead(mid.db, id));
    }
    assert id in Ahead(Run(s, events).db, id);
  }

  // ----- one turn of the loop -----

  /** What the handler's outside world answers: a verdict on a clip, another result, or an error. */
  datatype Outcome = Verdict(verification: Verification, moderation: Moderation) | Result | Error

  predicate MaintenanceDue(last: Option<int>, now: int) {
    last.None? || now - last.value >= HOUR
  }

  /** Enqueueing the cleanup job changes nothing while an earlier one is active. */
  function Maintenance(due: bool, job: int): Event {
    if due then Enqueue(job, Other("maintenance.cleanup"), 0, Some("maintenance.cleanup"), 5, 0) else Tick(0)
  }

  /** What `handle` does with a job: only a stored verdict is a result for an analysis. */
  function HandleEvent(w: int, c: Claim, outcome: Outcome): Event {
    if c.kind == Analyze && outcome.Verdict? then Decide(w, outcome.verification, outcome.moderation)
    else if c.kind != Analyze && outcome.Result? then Return(w)
    else Raise(w)
  }

  /** The events of a worker that has just claimed `c`. */
  ghost function WorkEvents(s: State, w: int, c: Claim, outcome: Outcome): seq<Event> {
    var e := HandleEvent(w, c, outcome);
    if PhaseOf(Next(s, e), w).Handled? then [e, Finish(w)] else [e, Route(w), GiveUp(w)]
  }

  /** A submission nobody has decided yet is left to a moderator, unpublished. */
  function InReviewIfOpen(s: Submission): Submission {
    if s.verification == Unverified || s.verification == ManualReview
    then s.(verification := ManualReview, moderation := Unmoderated, publishedAt := None) else s
  }

  class Worker {
    const id: int
    const jobTimeout: nat
    var lastMaintenance: Option<int>

    constructor (id: int, jobTimeout: nat)
      ensures this.id == id && this.jobTimeout == jobTimeout && lastMaintenance == None
    {
      this.id, this.jobTimeout, lastMaintenance := id, jobTimeout, None;
    }

    /** The queue with this worker alone, in the given phase. */
    ghost function Alone(db: Db, phase: Phase): State {
      State(db, map[id := phase], jobTimeout)
    }

    /** Enqueues the hourly cleanup job, which its key keeps from piling up. */
    method Maintain(queue: Queue, job: int)
      requires job !in queue.jobs && job !in queue.issued
      modifies queue`jobs, queue`issued, this
      ensures Alone(queue.Contents(), Idle) ==
              Next(Alone(old(queue.Contents()), Idle),
                   Maintenance(MaintenanceDue(old(lastMaintenance), queue.now), job))
      ensures lastMaintenance ==
              if MaintenanceDue(old(lastMaintenance), queue.now) then Some(queue.now) else old(lastMaintenance)
      ensures job in queue.jobs ==>
                queue.jobs[job] ==
                Job(Other("maintenance.cleanup"), 0, Some("maintenance.cleanup"), Queued, 0, 5, queue.now, queue.now, 0)
      ensures old(lastMaintenance).Some? && queue.now < old(lastMaintenance).value + 3600 * SECOND ==>
                queue.jobs == old(queue.jobs) && lastMaintenance == old(lastMaintenance)
      ensures old(lastMaintenance).None? || queue.now >= old(lastMaintenance).value + 3600 * SECOND ==>
                && lastMaintenance == Some(queue.now)
                && exists i :: Duplicate(queue.jobs, Some("maintenance.cleanup"), i)
    {
      if lastMaintenance.None? || queue.now - lastMaintenance.value >= HOUR {
        var key := Some("maintenance.cleanup");
        var r := queue.EnqueueJob(job, Other("maintenance.cleanup"), 0, key, 5);
        lastMaintenance := Some(queue.now);
        assert r == Ok(job) <==> KeyFree(old(queue.Contents()), key);
        assert Duplicate(queue.jobs, key, r.value);
      }
    }

    method Handle(queue: Queue, c: Claim, outcome: Outcome) returns (handled: bool)
      requires outcome.Verdict? ==> outcome.verification != Unverified
      modifies queue`submissions
      ensures Alone(queue.Contents(), if handled then Handled(c) else Failing(c)) ==
              Next(Alone(old(queue.Contents()), Handling(c)), HandleEvent(id, c, outcome))
      ensures c.kind != Analyze ==> handled == outcome.Result? && queue.submissions == old(queue.submissions)
      ensures c.kind == Analyze ==>
                (handled <==>
                 && outcome.Verdict? && c.entity in old(queue.submissions)
                 && old(queue.submissions)[c.entity].verification in {Unverified, ManualReview})
      ensures handled && c.kind == Analyze ==>
                && c.entity in queue.submissions && queue.submissions[c.entity].verification == outcome.verification
                && queue.submissions[c.entity].moderation == outcome.moderation
      ensures !handled ==> queue.submissions == old(queue.submissions)
    {
      if c.kind == Analyze && outcome.Verdict? {
        var conflict := queue.CompleteAutomatedAnalysis(c.entity, outcome.verification, outcome.moderation);
        handled := conflict.None?;
      } else {
        handled := outcome.Result? && c.kind != Analyze;
      }
    }

    /** Before an exhausted analysis is buried, its submission goes to manual review. */
    method Settle(queue: Queue, c: Claim, handled: bool)
      modifies queue`jobs, queue`submissions
      ensures Alone(queue.Contents(), Idle) ==
              if handled then Next(Alone(old(queue.Contents()), Handled(c)), Finish(id))
              else Next(Next(Alone(old(queue.Contents()), Failing(c)), Route(id)), GiveUp(id))
      ensures handled || c.kind != Analyze || c.attempts < c.maxAttempts ==> queue.submissions == old(queue.submissions)
      ensures !handled && c.kind == Analyze && c.attempts >= c.maxAttempts && c.entity in old(queue.submissions) ==>
                queue.submissions == old(queue.submissions)[c.entity :=
                  InReviewIfOpen(old(queue.submissions)[c.entity])]
    {
      if handled {
        var lost := queue.CompleteJob(c.job, id);
      } else {
        RouteToReview(queue, c);
        Fail(queue, c);
      }
    }

    method Fail(queue: Queue, c: Claim)
      modifies queue`jobs
      ensures Alone(queue.Contents(), Idle) == Next(Alone(old(queue.Contents()), Routed(c)), GiveUp(id))
    {
      var lost := queue.FailJob(c, id);
    }

    method RouteToReview(queue: Queue, c: Claim)
      modifies queue`submissions
      ensures c.kind != Analyze || c.attempts < c.maxAttempts ==> queue.submissions == old(queue.submissions)
      ensures c.kind == Analyze && c.attempts >= c.maxAttempts && c.entity in old(queue.submissions) ==>
                queue.submissions == old(queue.submissions)[c.entity :=
                  InReviewIfOpen(old(queue.submissions)[c.entity])]
      ensures Alone(queue.Contents(), Routed(c)) == Next(Alone(old(queue.Contents()), Failing(c)), Route(id))
    {
      if c.attempts >= c.maxAttempts && c.kind == Analyze {
        var conflict := queue.CompleteAutomatedAnalysis(c.entity, ManualReview, Unmoderated);
      }
    }

    method Work(queue: Queue, c: Claim, outcome: Outcome)
      requires outcome.Verdict? ==> outcome.verification != Unverified
      modifies queue`jobs, queue`submissions
      ensures var s := Alone(old(queue.Contents()), Handling(c));
              Alone(queue.Contents(), Idle) == Run(s, WorkEvents(s, id, c, outcome))
    {
      ghost var s, e := Alone(queue.Contents(), Handling(c)), HandleEvent(id, c, outcome);
      var handled := Handle(queue, c, outcome);
      ghost var mid := Alone(queue.Contents(), if handled then Handled(c) else Failing(c));
      Settle(queue, c, handled);
      if handled {
        RunTwo(s, mid, e, Finish(id));
      } else {
        RunThree(s, mid, e, Route(id), GiveUp(id));
      }
    }

    /**
     * One turn of `Run`, undisturbed, is exactly this worker's own events: the hourly
     * maintenance, then a claim with the work and the settling of the claimed job, or
     * nothing if no job is due.
     */
    method Turn(queue: Queue, maintenanceJob: int, outcome: Outcome) returns (claim: Result<Claim>)
      requires maintenanceJob !in queue.jobs && maintenanceJob !in queue.issued
      requires outcome.Verdict? ==> outcome.verification != Unverified
      modifies queue`jobs, queue`submissions, queue`issued, this
      ensures var s := Alone(old(queue.Contents()), Idle);
              var s1 := Next(s, Maintenance(MaintenanceDue(old(lastMaintenance), queue.now), maintenanceJob));
              if claim.Ok? then
                var s2 := Next(s1, ClaimNext(id, claim.value.job));
                && PhaseOf(s2, id) == Handling(claim.value)
                && Alone(queue.Contents(), Idle) == Run(s2, WorkEvents(s2, id, claim.value, outcome))
              else
                Alone(queue.Contents(), Idle) == s1 && NothingDue(queue.Contents(), jobTimeout)
      ensures lastMaintenance ==
              if MaintenanceDue(old(lastMaintenance), queue.now) then Some(queue.now) else old(lastMaintenance)
    {
      Maintain(queue, maintenanceJob);
      ghost var s1 := Alone(queue.Contents(), Idle);
      claim := queue.ClaimJob(id, jobTimeout);
      if claim.Ok? {
        assert Alone(queue.Contents(), Handling(claim.value)) == Next(s1, ClaimNext(id, claim.value.job));
        Work(queue, claim.value, outcome);
      }
    }
  }

  lemma RunTwo(s: State, mid: State, e: Event, e': Event)
    requires mid == Next(s, e)
    ensures Run(s, [e, e']) == Next(mid, e')
  {
    Unroll(s, [], e);
    Unroll(s, [e], e');
    assert [e] + [e'] == [e, e'];
  }

  lemma RunThree(s: State, mid: State, e: Event, e': Event, e'': Event)
    requires mid == Next(s, e)
    ensures Run(s, [e, e', e'']) == Next(Next(mid, e'), e'')
  {
    RunTwo(s, mid, e, e');
    Unroll(s, [e, e'], e'');
    assert [e, e'] + [e''] == [e, e', e''];
  }

  lemma Unroll(s: State, events: seq<Event>, e: Event)
    ensures Run(s, events + [e]) == Next(Run(s, events), e)
  {
    assert (events + [e])[..|events|] == events;
  }
}
