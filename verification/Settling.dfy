/**
 * How far a queue moves without new jobs (internal/store/jobs.go,
 * internal/worker/worker.go), and where it comes to rest.
 */
module Settling {
  import opened Prelude
  import opened Submissions
  import opened Jobs
  import opened Workers

  predicate NoNewJobs(events: seq<Event>) {
    forall i :: 0 <= i < |events| ==> !AddsJob(events[i])
  }

  /** A worker still holds the lease of the job. */
  predicate Held(s: State, id: int) {
    && id in s.db.jobs && s.db.jobs[id].status.Running? && s.db.jobs[id].status.owner in s.workers
    && !s.workers[s.db.jobs[id].status.owner].Idle? && s.workers[s.db.jobs[id].status.owner].claim.job == id
  }

  /** The job is queued, or may be recovered, or its worker may finish it. */
  predicate Movable(s: State, id: int) {
    && id in s.db.jobs
    && (|| s.db.jobs[id].status.Queued?
        || (s.db.jobs[id].status.Running? && !Exhausted(s.db.jobs[id]))
        || Held(s, id))
  }

  /** The worker of the last attempt is gone. */
  predicate Orphaned(s: State, id: int) {
    id in s.db.jobs && s.db.jobs[id].status.Running? && Exhausted(s.db.jobs[id]) && !Held(s, id)
  }

  /** Every job has ended, or is orphaned. */
  ghost predicate Settled(s: State) { forall id :: !Movable(s, id) }

  lemma SettledMeans(s: State)
    ensures Settled(s) <==> forall id :: id in s.db.jobs ==> Terminal(s.db.jobs[id]) || Orphaned(s, id)
  {
    forall id | id in s.db.jobs
      ensures !Movable(s, id) <==> Terminal(s.db.jobs[id]) || Orphaned(s, id)
    {}
  }

  // ----- a settled queue moves no more -----

  lemma NothingClaimable(s: State, pick: int)
    requires Settled(s)
    ensures !Claimable(Recover(s.db, s.staleAfter), pick)
  {
    if pick in s.db.jobs {
      assert Recover(s.db, s.staleAfter).jobs[pick] == RecoveredJob(s.db.jobs[pick], s.db.now, s.staleAfter);
      assert !Movable(s, pick);
    }
  }

  lemma NothingLocked(s: State, w: int)
    requires Settled(s) && w in s.workers && !s.workers[w].Idle?
    ensures !LockedBy(s.db, s.workers[w].claim.job, w)
  {
    assert !Movable(s, s.workers[w].claim.job);
  }

  /** The columns of a job that say how far it has come. */
  predicate SameProgress(a: Job, b: Job) {
    a.status == b.status && a.attempts == b.attempts && a.maxAttempts == b.maxAttempts
    && a.kind == b.kind && a.entity == b.entity
  }

  lemma SettledStep(s: State, e: Event)
    requires Inv(s) && Settled(s) && !AddsJob(e)
    ensures Moved(s, e) == {}
    ensures forall id :: id in Next(s, e).db.jobs ==>
              id in s.db.jobs && SameProgress(Next(s, e).db.jobs[id], s.db.jobs[id])
    ensures forall id :: id in s.db.jobs && !Terminal(s.db.jobs[id]) ==> id in Next(s, e).db.jobs
  {
    match e
    case ClaimNext(w, pick) => NothingClaimable(s, pick);
    case Finish(w) => if Enabled(s, e) { NothingLocked(s, w); }
    case GiveUp(w) => if Enabled(s, e) { NothingLocked(s, w); }
    case CancelDeletion(id) => assert !Movable(s, id);
    case _ =>
  }

  /** No worker takes up a job that it does not have. */
  lemma NoNewClaim(s: State, e: Event, w: int)
    requires Settled(s) && w in Next(s, e).workers && !Next(s, e).workers[w].Idle?
    ensures w in s.workers && !s.workers[w].Idle? && Next(s, e).workers[w].claim == s.workers[w].claim
  {
    if e.ClaimNext? {
      NothingClaimable(s, e.pick);
    }
  }

  lemma StaysSettled(s: State, e: Event)
    requires Inv(s) && Settled(s) && !AddsJob(e)
    ensures Settled(Next(s, e))
  {
    var s' := Next(s, e);
    SettledStep(s, e);
    forall id
      ensures !Movable(s', id)
    {
      assert !Movable(s, id);
      if Held(s', id) {
        NoNewClaim(s, e, s'.db.jobs[id].status.owner);
      }
    }
  }

  /** Once settled, without new jobs nothing ever moves: no status and no attempt count changes. */
  lemma {:induction false} SettledForever(s: State, events: seq<Event>)
    requires Inv(s) && Settled(s) && NoNewJobs(events)
    ensures MoveCount(s, events) == 0 && Settled(Run(s, events))
    ensures forall id :: id in Run(s, events).db.jobs ==>
              id in s.db.jobs && SameProgress(Run(s, events).db.jobs[id], s.db.jobs[id])
    ensures forall id :: id in s.db.jobs && !Terminal(s.db.jobs[id]) ==> id in Run(s, events).db.jobs
  {
    if events != [] {
      var front, e := events[..|events| - 1], events[|events| - 1];
      SettledForever(s, front);
      RunKeepsInv(s, front);
      SettledStep(Run(s, front), e);
      StaysSettled(Run(s, front), e);
    }
  }

  // ----- an unsettled queue can move -----

  lemma {:induction false} Earliest(db: Db, ids: set<int>) returns (id: int)
    requires ids != {} && ids <= db.jobs.Keys
    ensures id in ids && forall i :: i in ids ==> NoLater(db.jobs[id], db.jobs[i])
    decreases ids
  {
    var i := Pick(ids);
    id := i;
    if ids != {i} {
      var other := Earliest(db, ids - {i});
      assert forall j :: j in ids ==> j == i || j in ids - {i};
      if NoLater(db.jobs[other], db.jobs[i]) {
        id := other;
      }
    }
  }

  /** If some job is claimable, some job is first. */
  lemma FirstExists(db: Db, id: int) returns (pick: int)
    requires Claimable(db, id)
    ensures First(db, pick)
  {
    var claimable := set i | i in db.jobs && Claimable(db, i);
    assert id in claimable;
    pick := Earliest(db, claimable);
  }

  function Later(s: State, elapsed: nat): State { s.(db := s.db.(now := s.db.now + elapsed)) }

  /** A queued job becomes due, and a running one with attempts left becomes stale and is recovered. */
  lemma BecomesClaimable(s: State, id: int, wait: nat) returns (elapsed: nat)
    requires Inv(s) && id in s.db.jobs && Active(s.db.jobs[id]) && !Exhausted(s.db.jobs[id])
    ensures elapsed >= wait && Claimable(Recover(Later(s, elapsed).db, s.staleAfter), id)
  {
    var j := s.db.jobs[id];
    elapsed := Max(wait, if j.status.Queued? then j.availableAt - s.db.now
                         else j.status.lockedAt + s.staleAfter + 1 - s.db.now);
    var later := Later(s, elapsed).db;
    assert Recover(later, s.staleAfter).jobs[id] == RecoveredJob(j, later.now, s.staleAfter);
  }

  lemma IdleWorker(s: State) returns (w: int)
    ensures PhaseOf(s, w).Idle?
  {
    w := Above(s.workers.Keys);
  }

  lemma RunOne(s: State, e: Event)
    ensures Run(s, [e]) == Next(s, e) && MoveCount(s, [e]) == |Moved(s, e)|
  {
    assert [e][..0] == [];
    assert Run(s, [e][..0]) == s && MoveCount(s, [e][..0]) == 0;
  }

  lemma {:induction false} RunConcat(s: State, a: seq<Event>, b: seq<Event>)
    ensures Run(s, a + b) == Run(Run(s, a), b)
    ensures MoveCount(s, a + b) == MoveCount(s, a) + MoveCount(Run(s, a), b)
    decreases |b|
  {
    if b == [] {
      assert a + b == a;
    } else {
      RunConcat(s, a, b[..|b| - 1]);
      assert (a + b)[..|a + b| - 1] == a + b[..|b| - 1];
    }
  }

  /** A step after others: the run goes on, and what it moves is counted. */
  lemma MovesAfter(s: State, before: seq<Event>, e: Event)
    ensures MoveCount(s, before + [e]) >= |Moved(Run(s, before), e)|
  {
    RunConcat(s, before, [e]);
    RunOne(Run(s, before), e);
  }

  lemma ClaimMoves(s: State, id: int) returns (events: seq<Event>)
    requires Inv(s) && id in s.db.jobs && Active(s.db.jobs[id]) && !Exhausted(s.db.jobs[id])
    ensures NoNewJobs(events) && MoveCount(s, events) > 0
  {
    var elapsed := BecomesClaimable(s, id, 0);
    var later := Later(s, elapsed);
    var pick := FirstExists(Recover(later.db, s.staleAfter), id);
    var w := IdleWorker(later);
    RunOne(s, Tick(elapsed));
    assert Next(s, Tick(elapsed)) == later;
    assert pick in Moved(later, ClaimNext(w, pick));
    events := [Tick(elapsed)] + [ClaimNext(w, pick)];
    MovesAfter(s, [Tick(elapsed)], ClaimNext(w, pick));
  }

  /** How many events end what a worker is doing. */
  function ToGo(phase: Phase): nat {
    match phase
    case Idle => 0
    case Handling(_) => 3
    case Failing(_) => 2
    case _ => 1
  }

  /** Only the job `id` has changed, which no longer runs, and only the worker that held it, which is idle. */
  ghost predicate Released(s: State, s': State, id: int)
    requires Held(s, id)
  {
    && id in s'.db.jobs && !s'.db.jobs[id].status.Running?
    && s'.db.jobs == s.db.jobs[id := s'.db.jobs[id]] && (Exhausted(s.db.jobs[id]) ==> Terminal(s'.db.jobs[id]))
    && s'.workers == s.workers[s.db.jobs[id].status.owner := Idle]
  }

  /** The last statement of a worker ends its job, or queues it once more. */
  lemma LastStatement(s: State, id: int) returns (e: Event)
    requires Inv(s) && Held(s, id) && ToGo(s.workers[s.db.jobs[id].status.owner]) == 1
    ensures !AddsJob(e) && Moved(s, e) == {id} && Released(s, Next(s, e), id)
  {
    var w := s.db.jobs[id].status.owner;
    assert Believes(s.db, w, s.workers[w].claim);
    e := if s.workers[w].Handled? then Finish(w) else GiveUp(w);
  }

  /** An earlier one brings the worker closer to that, and leaves the jobs as they are. */
  lemma EarlierStatement(s: State, id: int) returns (e: Event)
    requires Held(s, id) && ToGo(s.workers[s.db.jobs[id].status.owner]) > 1
    ensures !AddsJob(e) && Held(Next(s, e), id) && Next(s, e).db.jobs == s.db.jobs
    ensures var (w, s') := (s.db.jobs[id].status.owner, Next(s, e));
            && s'.workers == s.workers[w := s'.workers[w]]
            && ToGo(s'.workers[w]) < ToGo(s.workers[w])
  {
    var w := s.db.jobs[id].status.owner;
    e := if s.workers[w].Handling? then Raise(w) else Route(w);
  }

  /** A worker that holds a job can finish it, or give it up, with nothing else happening. */
  lemma {:induction false} HolderEnds(s: State, id: int) returns (events: seq<Event>)
    requires Inv(s) && Held(s, id)
    ensures NoNewJobs(events) && MoveCount(s, events) > 0 && Released(s, Run(s, events), id)
    decreases ToGo(s.workers[s.db.jobs[id].status.owner])
  {
    if ToGo(s.workers[s.db.jobs[id].status.owner]) == 1 {
      var e := LastStatement(s, id);
      events := [e];
      RunOne(s, e);
    } else {
      var e := EarlierStatement(s, id);
      RunOne(s, e);
      StepKeepsInv(s, e);
      var rest := HolderEnds(Next(s, e), id);
      events := [e] + rest;
      RunConcat(s, [e], rest);
    }
  }

  /**
   * Exactly when a queue can still move without new jobs: when some job is queued, or is
   * running with attempts left, or is running under a worker that still holds it.
   */
  lemma CanMoveExactly(s: State)
    requires Inv(s)
    ensures (exists events :: NoNewJobs(events) && MoveCount(s, events) > 0) <==> exists id :: Movable(s, id)
  {
    if id :| Movable(s, id) {
      var events := MovableMoves(s, id);
    } else {
      forall events | NoNewJobs(events)
        ensures MoveCount(s, events) == 0
      {
        SettledForever(s, events);
      }
    }
  }

  lemma MovableMoves(s: State, id: int) returns (events: seq<Event>)
    requires Inv(s) && Movable(s, id)
    ensures NoNewJobs(events) && MoveCount(s, events) > 0
  {
    if Held(s, id) {
      events := HolderEnds(s, id);
    } else {
      assert SoundJob(s.db.jobs[id], s.db.now);
      events := ClaimMoves(s, id);
    }
  }

  /** From any state, some run without new jobs settles: every job ends or is orphaned. */
  lemma {:induction false} Settles(s: State) returns (events: seq<Event>)
    requires Inv(s)
    ensures NoNewJobs(events) && Settled(Run(s, events))
    ensures forall id :: id in Run(s, events).db.jobs ==>
              Terminal(Run(s, events).db.jobs[id]) || Orphaned(Run(s, events), id)
    decreases Total(s.db.jobs)
  {
    events := [];
    SettledMeans(s);
    if id :| Movable(s, id) {
      var front := MovableMoves(s, id);
      MovesAreBounded(s, front);
      RunKeepsInv(s, front);
      var rest := Settles(Run(s, front));
      events := front + rest;
      RunConcat(s, front, rest);
    }
  }
}
