/**
 * Which jobs finish (internal/store/jobs.go, internal/worker/worker.go). A claim that
 * finds nothing to claim rolls its recovery back, so a job whose last attempt was lost
 * stays running until some other job is claimed.
 */
module Orphans {
  import opened Prelude
  import opened Submissions
  import opened Jobs
  import opened Workers
  import opened Settling

  // ----- a claim ends an orphan, and nothing else does -----

  /** The next claim that succeeds, of whatever job, buries every exhausted job whose lease has expired. */
  lemma ClaimBuriesOrphans(s: State, w: int, pick: int, id: int)
    requires Inv(s) && Enabled(s, ClaimNext(w, pick))
    requires id in s.db.jobs && Stale(s.db.jobs[id], s.db.now, s.staleAfter) && Exhausted(s.db.jobs[id])
    ensures var s' := Next(s, ClaimNext(w, pick));
            && id in s'.db.jobs && s'.db.jobs[id].status.Dead?
            && (s.db.jobs[id].kind == Analyze && Pending(s.db, s.db.jobs[id].entity) ==>
                  s'.db.submissions[s.db.jobs[id].entity] == Abandoned(s.db.submissions[s.db.jobs[id].entity]))
  {
    var recovered := Recover(s.db, s.staleAfter);
    assert recovered.jobs[id] == RecoveredJob(s.db.jobs[id], s.db.now, s.staleAfter);
    assert pick != id;
    if s.db.jobs[id].kind == Analyze && Pending(s.db, s.db.jobs[id].entity) {
      assert Lost(s.db, s.db.jobs[id].entity, s.staleAfter);
    }
  }

  /** Once the hourly cleanup job has been enqueued, any idle worker's claim succeeds, and so buries the orphans. */
  lemma MaintenanceUnblocks(s: State, w: int, job: int) returns (pick: int)
    requires Inv(s) && Enabled(s, Maintenance(true, job)) && PhaseOf(s, w).Idle?
    ensures Enabled(Next(s, Maintenance(true, job)), ClaimNext(w, pick))
  {
    var s' := Next(s, Maintenance(true, job));
    assert Recover(s'.db, s.staleAfter).jobs[job] == RecoveredJob(s'.db.jobs[job], s.db.now, s.staleAfter);
    pick := FirstExists(Recover(s'.db, s.staleAfter), job);
  }

  /** No event but a claim that succeeds changes an orphan. */
  lemma OrphanStays(s: State, e: Event, id: int)
    requires Inv(s) && Orphaned(s, id) && !(Enabled(s, e) && e.ClaimNext?)
    ensures Orphaned(Next(s, e), id) && SameProgress(Next(s, e).db.jobs[id], s.db.jobs[id])
    ensures s.db.now <= Next(s, e).db.now && Next(s, e).staleAfter == s.staleAfter
  {
  }

  /** The job is dead, or has been purged since. */
  predicate Buried(s: State, id: int) {
    id in s.db.issued && (id in s.db.jobs ==> s.db.jobs[id].status.Dead?)
  }

  lemma StaysBuried(s: State, e: Event, id: int)
    requires Inv(s) && Buried(s, id)
    ensures Buried(Next(s, e), id)
  {
    StepKeepsIssued(s, e, id);
    if id in s.db.jobs {
      StepKeepsTerminal(s, e, id);
    }
  }

  predicate Expired(s: State, id: int) {
    Orphaned(s, id) && Stale(s.db.jobs[id], s.db.now, s.staleAfter)
  }

  lemma ExpiredStep(s: State, e: Event, id: int)
    requires Inv(s) && Expired(s, id)
    ensures if Enabled(s, e) && e.ClaimNext? then Buried(Next(s, e), id)
            else Expired(Next(s, e), id) && SameProgress(Next(s, e).db.jobs[id], s.db.jobs[id])
  {
    if Enabled(s, e) && e.ClaimNext? {
      ClaimBuriesOrphans(s, e.worker, e.pick, id);
    } else {
      OrphanStays(s, e, id);
    }
  }

  /**
   * Over every run, new jobs included: an exhausted job without its worker, whose lease
   * has expired, stays running exactly until the first claim that succeeds, which buries it.
   */
  lemma {:induction false} OrphanWaitsForClaim(s: State, events: seq<Event>, id: int)
    requires Inv(s) && Expired(s, id)
    ensures var end := Run(s, events);
            if ClaimCount(s, events) == 0 then Expired(end, id) && SameProgress(end.db.jobs[id], s.db.jobs[id])
            else Buried(end, id)
  {
    if events != [] {
      var front, e := events[..|events| - 1], events[|events| - 1];
      OrphanWaitsForClaim(s, front, id);
      RunKeepsInv(s, front);
      if ClaimCount(s, front) == 0 {
        ExpiredStep(Run(s, front), e, id);
      } else {
        StaysBuried(Run(s, front), e, id);
      }
    }
  }

  /** A moderator decides about the submission, or a worker that still analyzes it, or gives it up. */
  predicate DecidesAbout(s: State, e: Event, sub: int) {
    || (e.Verify? && e.submission == sub)
    || ((e.Decide? || e.Route?) && !PhaseOf(s, e.worker).Idle? && PhaseOf(s, e.worker).claim.kind == Analyze
        && PhaseOf(s, e.worker).claim.entity == sub)
  }

  ghost predicate NobodyDecides(s: State, events: seq<Event>, sub: int) {
    events != [] ==>
      && NobodyDecides(s, events[..|events| - 1], sub)
      && !DecidesAbout(Run(s, events[..|events| - 1]), events[|events| - 1], sub)
  }

  lemma UndecidedStep(s: State, e: Event, sub: int)
    requires sub in s.db.submissions && !DecidesAbout(s, e, sub)
    requires s.db.submissions[sub].verification != Unverified || !(Enabled(s, e) && e.ClaimNext?)
    ensures sub in Next(s, e).db.submissions && Next(s, e).db.submissions[sub] == s.db.submissions[sub]
  {
  }

  /**
   * The submission of such an analysis, while nobody decides about it, is left as it was
   * until the first claim that succeeds, and is in manual review from then on.
   */
  lemma {:induction false} LostMeansManualReview(s: State, events: seq<Event>, id: int)
    requires Inv(s) && Expired(s, id) && s.db.jobs[id].kind == Analyze
    requires Pending(s.db, s.db.jobs[id].entity) && NobodyDecides(s, events, s.db.jobs[id].entity)
    ensures var (sub, end) := (s.db.jobs[id].entity, Run(s, events));
            && sub in end.db.submissions
            && end.db.submissions[sub] ==
               if ClaimCount(s, events) == 0 then s.db.submissions[sub] else Abandoned(s.db.submissions[sub])
  {
    if events != [] {
      var front, e := events[..|events| - 1], events[|events| - 1];
      var mid := Run(s, front);
      LostMeansManualReview(s, front, id);
      OrphanWaitsForClaim(s, front, id);
      RunKeepsInv(s, front);
      if Enabled(mid, e) && e.ClaimNext? && ClaimCount(s, front) == 0 {
        ClaimBuriesOrphans(mid, e.worker, e.pick, id);
      } else {
        UndecidedStep(mid, e, s.db.jobs[id].entity);
      }
    }
  }

  // ----- which jobs can end -----

  /** Some job is still to be attempted, now or once its lease has expired. */
  ghost predicate AttemptLeft(s: State) {
    exists j :: j in s.db.jobs && Active(s.db.jobs[j]) && !Exhausted(s.db.jobs[j])
  }

  lemma NothingToAttempt(s: State, pick: int)
    requires !AttemptLeft(s)
    ensures !Claimable(Recover(s.db, s.staleAfter), pick)
  {
    if pick in s.db.jobs {
      assert Recover(s.db, s.staleAfter).jobs[pick] == RecoveredJob(s.db.jobs[pick], s.db.now, s.staleAfter);
    }
  }

  lemma StaysSpent(s: State, e: Event)
    requires Inv(s) && !AttemptLeft(s) && !AddsJob(e)
    ensures !(Enabled(s, e) && e.ClaimNext?) && !AttemptLeft(Next(s, e))
  {
    if e.ClaimNext? {
      NothingToAttempt(s, e.pick);
    } else if Enabled(s, e) && e.GiveUp? {
      assert Believes(s.db, e.worker, s.workers[e.worker].claim);
    }
  }

  /** With no attempt left, and without new jobs, no claim ever succeeds, and every orphan stays one. */
  lemma {:induction false} SpentForever(s: State, events: seq<Event>)
    requires Inv(s) && !AttemptLeft(s) && NoNewJobs(events)
    ensures !AttemptLeft(Run(s, events)) && ClaimCount(s, events) == 0
    ensures forall id :: Orphaned(s, id) ==> Orphaned(Run(s, events), id)
  {
    if events != [] {
      var front, e := events[..|events| - 1], events[|events| - 1];
      SpentForever(s, front);
      RunKeepsInv(s, front);
      StaysSpent(Run(s, front), e);
      forall id | Orphaned(s, id)
        ensures Orphaned(Run(s, events), id)
      {
        OrphanStays(Run(s, front), e, id);
      }
    }
  }

  predicate Ended(s: State, id: int) { id in s.db.jobs ==> Terminal(s.db.jobs[id]) }

  ghost predicate AllEnded(s: State) { forall id :: Ended(s, id) }

  ghost predicate NoneRunning(s: State) {
    forall id :: id in s.db.jobs ==> !s.db.jobs[id].status.Running?
  }

  /** A claim recovers or buries whatever runs, once every lease has expired, and then only its own job runs. */
  lemma ClaimSweeps(s: State, w: int, pick: int)
    requires Enabled(s, ClaimNext(w, pick))
    requires forall id :: id in s.db.jobs && s.db.jobs[id].status.Running? ==>
               Stale(s.db.jobs[id], s.db.now, s.staleAfter)
    ensures var s' := Next(s, ClaimNext(w, pick));
            && Held(s', pick) && s'.db.jobs[pick].status.owner == w
            && forall id :: id in s'.db.jobs && s'.db.jobs[id].status.Running? ==> id == pick
  {
    var recovered := Recover(s.db, s.staleAfter);
    forall id | id in s.db.jobs
      ensures recovered.jobs[id] == RecoveredJob(s.db.jobs[id], s.db.now, s.staleAfter)
    {}
  }

  /** While an attempt is left, waiting brings about a claim that leaves only its own job running. */
  lemma Attempt(s: State) returns (events: seq<Event>, pick: int)
    requires Inv(s) && AttemptLeft(s)
    ensures NoNewJobs(events) && Held(Run(s, events), pick)
    ensures forall id :: id in Run(s, events).db.jobs && Run(s, events).db.jobs[id].status.Running? ==> id == pick
  {
    var id :| id in s.db.jobs && Active(s.db.jobs[id]) && !Exhausted(s.db.jobs[id]);
    var elapsed := BecomesClaimable(s, id, s.staleAfter + 1);
    var later := Later(s, elapsed);
    var w := IdleWorker(s);
    pick := FirstExists(Recover(later.db, s.staleAfter), id);
    AllStale(s, elapsed);
    ClaimSweeps(later, w, pick);
    events := [Tick(elapsed), ClaimNext(w, pick)];
    RunTwo(s, later, Tick(elapsed), ClaimNext(w, pick));
  }

  lemma AllStale(s: State, elapsed: nat)
    requires Inv(s) && elapsed > s.staleAfter
    ensures forall id :: id in s.db.jobs && s.db.jobs[id].status.Running? ==>
              Stale(s.db.jobs[id], s.db.now + elapsed, s.staleAfter)
  {
  }

  /** Once that attempt is given up, nothing runs. */
  lemma AttemptOver(s: State) returns (events: seq<Event>)
    requires Inv(s) && AttemptLeft(s)
    ensures NoNewJobs(events) && MoveCount(s, events) > 0 && NoneRunning(Run(s, events))
  {
    var begin, pick := Attempt(s);
    RunKeepsInv(s, begin);
    var rest := HolderEnds(Run(s, begin), pick);
    events := begin + rest;
    RunConcat(s, begin, rest);
  }

  /** While attempts are left, or nothing runs, all jobs can end. */
  lemma {:induction false} AttemptsEnd(s: State) returns (events: seq<Event>)
    requires Inv(s) && (AttemptLeft(s) || NoneRunning(s))
    ensures NoNewJobs(events) && AllEnded(Run(s, events))
    decreases Total(s.db.jobs)
  {
    if AttemptLeft(s) {
      var front := AttemptOver(s);
      MovesAreBounded(s, front);
      RunKeepsInv(s, front);
      var rest := AttemptsEnd(Run(s, front));
      events := front + rest;
      RunConcat(s, front, rest);
    } else {
      events := [];
      forall id ensures Ended(s, id) {
        assert id in s.db.jobs ==> SoundJob(s.db.jobs[id], s.db.now);
      }
    }
  }

  lemma NoOrphanAdded(s: State, s': State, id: int)
    requires Held(s, id) && Released(s, s', id) && forall other :: !Orphaned(s, other)
    ensures forall other :: !Orphaned(s', other)
  {
    forall other
      ensures !Orphaned(s', other)
    {
      assert !Orphaned(s, other);
    }
  }

  /** With no attempt left and no orphan, every worker ends its job. */
  lemma {:induction false} HoldersEnd(s: State) returns (events: seq<Event>)
    requires Inv(s) && !AttemptLeft(s) && forall id :: !Orphaned(s, id)
    ensures NoNewJobs(events) && AllEnded(Run(s, events))
    decreases Total(s.db.jobs)
  {
    if id :| Held(s, id) {
      var front := HolderEnds(s, id);
      MovesAreBounded(s, front);
      RunKeepsInv(s, front);
      SpentForever(s, front);
      NoOrphanAdded(s, Run(s, front), id);
      var rest := HoldersEnd(Run(s, front));
      events := front + rest;
      RunConcat(s, front, rest);
    } else {
      events := [];
      forall id ensures Ended(s, id) {
        assert !Orphaned(s, id) && !Held(s, id);
        assert id in s.db.jobs ==> SoundJob(s.db.jobs[id], s.db.now);
      }
    }
  }

  /**
   * Exactly when every job can still finish without new jobs: when an active job has an
   * attempt left, or no job has lost the worker of its last attempt.
   */
  lemma AllCanEndExactly(s: State)
    requires Inv(s)
    ensures (exists events :: NoNewJobs(events) && AllEnded(Run(s, events))) <==>
            AttemptLeft(s) || forall id :: !Orphaned(s, id)
  {
    if AttemptLeft(s) {
      var events := AttemptsEnd(s);
    } else if id :| Orphaned(s, id) {
      forall events | NoNewJobs(events)
        ensures !AllEnded(Run(s, events))
      {
        SpentForever(s, events);
        assert !Ended(Run(s, events), id);
      }
    } else {
      var events := HoldersEnd(s);
    }
  }

  /** Exactly when one job can still finish without new jobs. */
  lemma CanEndExactly(s: State, id: int)
    requires Inv(s)
    ensures (exists events :: NoNewJobs(events) && Ended(Run(s, events), id)) <==> AttemptLeft(s) || !Orphaned(s, id)
  {
    if AttemptLeft(s) {
      var events := AttemptsEnd(s);
      assert Ended(Run(s, events), id);
    } else if Orphaned(s, id) {
      forall events | NoNewJobs(events)
        ensures !Ended(Run(s, events), id)
      {
        SpentForever(s, events);
      }
    } else if Held(s, id) {
      var events := HolderEnds(s, id);
      assert Ended(Run(s, events), id);
    } else {
      assert id in s.db.jobs ==> SoundJob(s.db.jobs[id], s.db.now);
      assert NoNewJobs([]) && Ended(Run(s, []), id);
    }
  }

  // ----- a submission left waiting -----

  /** No moderator decides. */
  predicate NoVerify(events: seq<Event>) {
    forall i :: 0 <= i < |events| ==> !events[i].Verify?
  }

  ghost predicate AllIdle(s: State) { forall w :: w in s.workers ==> s.workers[w].Idle? }

  lemma {:induction false} QuietForever(s: State, events: seq<Event>, sub: int)
    requires Inv(s) && Settled(s) && AllIdle(s) && NoNewJobs(events) && Pending(s.db, sub)
    requires NoVerify(events)
    ensures AllIdle(Run(s, events)) && Pending(Run(s, events).db, sub)
  {
    if events != [] {
      var front, e := events[..|events| - 1], events[|events| - 1];
      QuietForever(s, front, sub);
      SettledForever(s, front);
      QuietStep(Run(s, front), e, sub);
    }
  }

  lemma QuietStep(s: State, e: Event, sub: int)
    requires Settled(s) && AllIdle(s) && Pending(s.db, sub) && !e.Verify?
    ensures AllIdle(Next(s, e)) && Pending(Next(s, e).db, sub)
  {
    if e.ClaimNext? {
      NothingClaimable(s, e.pick);
    }
  }

  /** The queue holds one analysis job, with `attempts` attempts made and nobody at work. */
  ghost predicate Lone(s: State, id: int, sub: int, attempts: int) {
    && Inv(s) && AllIdle(s) && s.db.jobs.Keys == {id} && s.db.jobs[id].kind == Analyze && s.db.jobs[id].entity == sub
    && Active(s.db.jobs[id]) && s.db.jobs[id].attempts == attempts && s.db.jobs[id].maxAttempts == 5
    && Pending(s.db, sub)
  }

  /** One more attempt whose worker crashes. */
  lemma CrashOnce(s: State, id: int, sub: int, attempts: int) returns (events: seq<Event>)
    requires Lone(s, id, sub, attempts) && attempts < 5
    ensures NoNewJobs(events) && Lone(Run(s, events), id, sub, attempts + 1)
    ensures Run(s, events).db.jobs[id].status.Running?
  {
    var elapsed := BecomesClaimable(s, id, 0);
    var w := IdleWorker(s);
    var later := Later(s, elapsed);
    assert Next(s, Tick(elapsed)) == later;
    Claims(later, id, sub, attempts, w);
    events := [Tick(elapsed), ClaimNext(w, id), Crash(w)];
    RunThree(s, later, Tick(elapsed), ClaimNext(w, id), Crash(w));
    RunKeepsInv(s, events);
  }

  lemma Claims(s: State, id: int, sub: int, attempts: int, w: int)
    requires AllIdle(s) && s.db.jobs.Keys == {id} && s.db.jobs[id].attempts == attempts && attempts < 5
    requires s.db.jobs[id].kind == Analyze && s.db.jobs[id].entity == sub && s.db.jobs[id].maxAttempts == 5
    requires Pending(s.db, sub) && Claimable(Recover(s.db, s.staleAfter), id) && PhaseOf(s, w).Idle?
    ensures var s' := Next(Next(s, ClaimNext(w, id)), Crash(w));
            && AllIdle(s') && s'.db.jobs.Keys == {id} && s'.db.jobs[id].status.Running? && Pending(s'.db, sub)
            && s'.db.jobs[id] == s.db.jobs[id].(status := s'.db.jobs[id].status, attempts := attempts + 1,
                                                availableAt := s'.db.jobs[id].availableAt,
                                                completedAt := s'.db.jobs[id].completedAt)
  {
    var recovered := Recover(s.db, s.staleAfter);
    assert recovered.jobs[id] == RecoveredJob(s.db.jobs[id], s.db.now, s.staleAfter);
    assert First(recovered, id);
    assert !Lost(s.db, sub, s.staleAfter);
  }

  lemma {:induction false} CrashOften(s: State, id: int, sub: int, more: nat) returns (events: seq<Event>)
    requires more <= 5 && Lone(s, id, sub, 5 - more) && (more == 0 ==> s.db.jobs[id].status.Running?)
    ensures NoNewJobs(events) && Lone(Run(s, events), id, sub, 5) && Run(s, events).db.jobs[id].status.Running?
    decreases more
  {
    events := [];
    if more > 0 {
      var first := CrashOnce(s, id, sub, 5 - more);
      var rest := CrashOften(Run(s, first), id, sub, more - 1);
      events := first + rest;
      RunConcat(s, first, rest);
    }
  }

  /**
   * So a submission can be left waiting: after five crashes its analysis is out of
   * attempts and still running, and until a new job is enqueued, or a moderator decides,
   * it stays so, and the submission stays pending.
   */
  lemma FiveCrashesLeaveItPending(s: State, id: int, sub: int, user: int) returns (events: seq<Event>)
    requires Initial(s) && id !in s.db.issued
    ensures var stuck := Run(s, events);
            && Orphaned(stuck, id) && stuck.db.jobs[id].kind == Analyze && stuck.db.jobs[id].entity == sub
            && (forall later: seq<Event> :: NoNewJobs(later) && NoVerify(later) ==>
                  && MoveCount(stuck, later) == 0 && Orphaned(Run(stuck, later), id)
                  && Pending(Run(stuck, later).db, sub))
  {
    var submit := Submit(sub, 0, user, 0, id, None);
    RunOne(s, submit);
    var s1 := Next(s, submit);
    assert Inv(s) && Inv(s1) by { StepKeepsInv(s, submit); }
    var crashes := CrashOften(s1, id, sub, 5);
    events := [submit] + crashes;
    RunConcat(s, [submit], crashes);
    var stuck := Run(s, events);
    StuckForever(stuck, id, sub);
  }

  lemma StuckForever(s: State, id: int, sub: int)
    requires Lone(s, id, sub, 5) && s.db.jobs[id].status.Running?
    ensures Orphaned(s, id)
    ensures forall later: seq<Event> :: NoNewJobs(later) && NoVerify(later) ==>
              && MoveCount(s, later) == 0 && Orphaned(Run(s, later), id) && Pending(Run(s, later).db, sub)
  {
    assert Settled(s);
    forall later: seq<Event> | NoNewJobs(later) && NoVerify(later)
      ensures MoveCount(s, later) == 0 && Orphaned(Run(s, later), id) && Pending(Run(s, later).db, sub)
    {
      SettledForever(s, later);
      QuietForever(s, later, sub);
    }
  }
}
