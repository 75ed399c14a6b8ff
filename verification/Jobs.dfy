/**
 * The durable job queue (internal/store/jobs.go) and the workers that drive it
 * (internal/worker/worker.go). Workers are sequential; any of them may crash at
 * any point, and one that outlives its lease goes on without knowing it.
 */
module Jobs {
  import opened Prelude
  import opened Submissions

  datatype Kind = Analyze | DeleteAccount | Other(name: string)

  /** `locked_by` and `locked_at` are set exactly while a job runs. */
  datatype Status = Queued | Running(owner: int, lockedAt: int) | Succeeded | Dead

  datatype Job = Job(
    kind: Kind, entity: int, dedupe: Option<string>, status: Status, attempts: int, maxAttempts: int,
    availableAt: int, createdAt: int, completedAt: int)

  /** The rows of the queue; `issued` is every job ID handed out so far. */
  datatype Db = Db(now: int, jobs: map<int, Job>, submissions: map<int, Submission>, issued: set<int>)

  predicate Active(j: Job) { j.status.Queued? || j.status.Running? }

  predicate Terminal(j: Job) { j.status.Succeeded? || j.status.Dead? }

  predicate Stale(j: Job, now: int, staleAfter: int) {
    j.status.Running? && j.status.lockedAt < now - staleAfter
  }

  predicate Exhausted(j: Job) { j.attempts >= j.maxAttempts }

  // ----- enqueueing -----

  function NewJob(kind: Kind, entity: int, dedupe: Option<string>, maxAttempts: int, now: int): Job {
    Job(kind, entity, dedupe, Queued, 0, maxAttempts, now, now, 0)
  }

  predicate Duplicate(jobs: map<int, Job>, dedupe: Option<string>, id: int) {
    id in jobs && dedupe.Some? && jobs[id].dedupe == dedupe && Active(jobs[id])
  }

  function Insert(db: Db, id: int, job: Job): Db {
    db.(jobs := db.jobs[id := job], issued := db.issued + {id})
  }

  // ----- claiming -----

  function RecoveredJob(j: Job, now: int, staleAfter: int): Job {
    if !Stale(j, now, staleAfter) then j
    else if Exhausted(j) then j.(status := Dead, availableAt := now, completedAt := now)
    else j.(status := Queued, availableAt := now, completedAt := 0)
  }

  /** An analysis job for `s` has lost its worker with no attempt left. */
  predicate Lost(db: Db, s: int, staleAfter: int) {
    exists j :: j in db.jobs && db.jobs[j].kind == Analyze && db.jobs[j].entity == s
                && Stale(db.jobs[j], db.now, staleAfter) && Exhausted(db.jobs[j])
  }

  function RecoveredSubmissions(db: Db, staleAfter: int): map<int, Submission> {
    map s | s in db.submissions ::
      if Lost(db, s, staleAfter) && db.submissions[s].verification == Unverified
      then Abandoned(db.submissions[s]) else db.submissions[s]
  }

  /** The two updates at the start of a claim. */
  function Recover(db: Db, staleAfter: int): Db {
    db.(submissions := RecoveredSubmissions(db, staleAfter),
        jobs := map j | j in db.jobs :: RecoveredJob(db.jobs[j], db.now, staleAfter))
  }

  predicate Claimable(db: Db, id: int) {
    && id in db.jobs && db.jobs[id].status.Queued?
    && db.jobs[id].attempts < db.jobs[id].maxAttempts && db.jobs[id].availableAt <= db.now
  }

  /** `ORDER BY available_at, created_at`. */
  predicate NoLater(a: Job, b: Job) {
    a.availableAt < b.availableAt || (a.availableAt == b.availableAt && a.createdAt <= b.createdAt)
  }

  /** `id` is one of the first claimable jobs; rows that tie may come in any order. */
  ghost predicate First(db: Db, id: int) {
    Claimable(db, id) && forall i :: Claimable(db, i) ==> NoLater(db.jobs[id], db.jobs[i])
  }

  /** What the worker knows about the job it claimed. */
  datatype Claim = Claim(job: int, kind: Kind, entity: int, attempts: int, maxAttempts: int)

  function Claimed(db: Db, id: int, worker: int): (Db, Claim)
    requires id in db.jobs
  {
    var j := db.jobs[id].(status := Running(worker, db.now), attempts := db.jobs[id].attempts + 1);
    (db.(jobs := db.jobs[id := j]), Claim(id, j.kind, j.entity, j.attempts, j.maxAttempts))
  }

  /** No queued job with attempts left is due, and no stale job has an attempt left. */
  ghost predicate NothingDue(db: Db, staleAfter: int) {
    forall id :: id in db.jobs ==>
      && (db.jobs[id].status.Queued? && !Exhausted(db.jobs[id]) ==> db.now < db.jobs[id].availableAt)
      && (Stale(db.jobs[id], db.now, staleAfter) ==> Exhausted(db.jobs[id]))
  }

  /** A claim comes back empty only if no job is due and no stale job has an attempt left. */
  lemma NothingToClaim(db: Db, staleAfter: int)
    requires forall id :: !Claimable(Recover(db, staleAfter), id)
    ensures NothingDue(db, staleAfter)
  {
    var recovered := Recover(db, staleAfter);
    forall id | id in db.jobs
      ensures db.jobs[id].status.Queued? && !Exhausted(db.jobs[id]) ==> db.now < db.jobs[id].availableAt
      ensures Stale(db.jobs[id], db.now, staleAfter) ==> Exhausted(db.jobs[id])
    {
      assert recovered.jobs[id] == RecoveredJob(db.jobs[id], db.now, staleAfter);
      assert !Claimable(recovered, id);
    }
  }

  // ----- finishing -----

  predicate LockedBy(db: Db, id: int, worker: int) {
    id in db.jobs && db.jobs[id].status.Running? && db.jobs[id].status.owner == worker
  }

  function Complete(db: Db, id: int, worker: int): (Db, Option<Error>) {
    if LockedBy(db, id, worker)
    then (db.(jobs := db.jobs[id := db.jobs[id].(status := Succeeded, completedAt := db.now)]), None)
    else (db, Some(Conflict))
  }

  function Pow2(n: nat): (p: nat)
    ensures p >= 1
  {
    if n == 0 then 1 else 2 * Pow2(n - 1)
  }

  /** `1 << min(attempts, 8)` seconds. */
  function Backoff(attempts: int): (d: int)
    ensures attempts >= 0 ==> d > 0
  {
    if attempts < 0 then 0 else Pow2(if attempts < 8 then attempts else 8) * SECOND
  }

  /** The wait after a failure starts at a second, doubles with each attempt and stays at 256 seconds. */
  lemma BackoffDoubles(attempts: nat)
    ensures Backoff(0) == SECOND
    ensures attempts < 8 ==> Backoff(attempts + 1) == 2 * Backoff(attempts)
    ensures attempts >= 8 ==> Backoff(attempts) == 256 * SECOND
  {
    assert Pow2(2) == 4 && Pow2(4) == 16 && Pow2(6) == 64 && Pow2(8) == 256;
  }

  /** Requeues or buries the job by what the worker knows, not by what the row says. */
  function Fail(db: Db, c: Claim, worker: int): (Db, Option<Error>) {
    if LockedBy(db, c.job, worker)
    then
      var dead := c.attempts >= c.maxAttempts;
      (db.(jobs := db.jobs[c.job := db.jobs[c.job].(
         status := if dead then Dead else Queued,
         availableAt := db.now + Backoff(c.attempts),
         completedAt := if dead then db.now else 0)]), None)
    else (db, Some(Conflict))
  }

  /** `CompleteAutomatedAnalysis`; a row that is already decided is a conflict. */
  function Analysis(db: Db, submission: int, v: Verification, m: Moderation): (Db, Option<Error>) {
    if submission in db.submissions && Undecided(db.submissions[submission])
    then (db.(submissions := db.submissions[submission := Analyzed(db.submissions[submission], v, m, db.now)]), None)
    else (db, Some(Conflict))
  }

  predicate Deletable(j: Job, now: int) {
    Terminal(j) && j.completedAt < now - RETENTION
  }

  function Cleanup(db: Db): Db {
    db.(jobs := map j | j in db.jobs && !Deletable(db.jobs[j], db.now) :: db.jobs[j])
  }

  // ----- the store -----

  class Queue {
    var now: int
    var jobs: map<int, Job>
    var submissions: map<int, Submission>
    ghost var issued: set<int>

    ghost function Contents(): Db
      reads this
    {
      Db(now, jobs, submissions, issued)
    }

    constructor (now: int)
      ensures Contents() == Db(now, map[], map[], {})
    {
      this.now, jobs, submissions, issued := now, map[], map[], {};
    }

    /** With a dedupe key that an active job carries, no row is added and that job is returned. */
    method EnqueueJob(id: int, kind: Kind, entity: int, dedupe: Option<string>, maxAttempts: int)
      returns (r: Result<int>)
      modifies this`jobs, this`issued
      ensures maxAttempts <= 0 ==> r == Err(Invalid)
      ensures maxAttempts > 0 && id in old(jobs) ==> r == Err(Conflict)
      ensures maxAttempts > 0 && id !in old(jobs) ==> r.Ok?
      ensures r.Err? ==> Contents() == old(Contents())
      ensures r.Ok? && r.value != id ==>
                && dedupe.Some? && r.value in jobs && jobs[r.value].dedupe == dedupe
                && (jobs[r.value].status.Queued? || jobs[r.value].status.Running?)
      ensures r.Ok? && r.value != id ==> Duplicate(old(jobs), dedupe, r.value) && Contents() == old(Contents())
      ensures r == Ok(id) ==>
                && (forall i :: !Duplicate(old(jobs), dedupe, i))
                && Contents() == Insert(old(Contents()), id, NewJob(kind, entity, dedupe, maxAttempts, now))
                && jobs == old(jobs)[id := Job(kind, entity, dedupe, Queued, 0, maxAttempts, now, now, 0)]
    {
      if maxAttempts <= 0 {
        return Err(Invalid);
      }
      if id in jobs {
        return Err(Conflict);
      }
      if dedupe.Some? {
        if i :| i in jobs && jobs[i].dedupe == dedupe && Active(jobs[i]) {
          return Ok(i);
        }
      }
      jobs := jobs[id := NewJob(kind, entity, dedupe, maxAttempts, now)];
      issued := issued + {id};
      return Ok(id);
    }

    /** The `next_job` query: the first due job with attempts left. */
    method NextJob() returns (r: Option<int>)
      ensures r.Some? ==> First(Contents(), r.value)
      ensures r.None? ==> forall id :: !Claimable(Contents(), id)
    {
      var rest := set id | id in jobs && jobs[id].status.Queued?
                           && jobs[id].attempts < jobs[id].maxAttempts && jobs[id].availableAt <= now;
      assert forall id :: Claimable(Contents(), id) <==> id in rest;
      if rest == {} {
        return None;
      }
      ghost var some := Pick(rest);
      var first :| first in rest;
      rest := rest - {first};
      while rest != {}
        invariant Claimable(Contents(), first)
        invariant forall id :: id in rest ==> Claimable(Contents(), id)
        invariant forall id :: Claimable(Contents(), id) && id !in rest ==> NoLater(jobs[first], jobs[id])
        decreases rest
      {
        some := Pick(rest);
        var id :| id in rest;
        if !NoLater(jobs[first], jobs[id]) {
          first := id;
        }
        rest := rest - {id};
      }
      return Some(first);
    }

    /**
     * Recovers stale jobs, then claims the first due one. With nothing to claim the
     * transaction is rolled back, recovery included.
     */
    method ClaimJob(worker: int, staleAfter: int) returns (r: Result<Claim>)
      modifies this`jobs, this`submissions
      ensures r.Ok? ==>
                var recovered := Recover(old(Contents()), staleAfter);
                First(recovered, r.value.job) && (Contents(), r.value) == Claimed(recovered, r.value.job, worker)
      ensures r.Err? ==> r.error == NotFound && Contents() == old(Contents()) && NothingDue(Contents(), staleAfter)
    {
      var savedJobs, savedSubmissions := jobs, submissions;
      submissions := map s | s in submissions ::
        if submissions[s].verification == Unverified
           && exists j :: j in jobs && jobs[j].kind == Analyze && jobs[j].entity == s
                          && Stale(jobs[j], now, staleAfter) && Exhausted(jobs[j])
        then Abandoned(submissions[s]) else submissions[s];
      jobs := map j | j in jobs :: RecoveredJob(jobs[j], now, staleAfter);
      ghost var recovered := Recover(old(Contents()), staleAfter);
      assert Contents() == recovered;
      var next := NextJob();
      if next.None? {
        forall id ensures !Claimable(recovered, id) { assert !Claimable(Contents(), id); }
        NothingToClaim(old(Contents()), staleAfter);
        jobs, submissions := savedJobs, savedSubmissions;  // rollback
        return Err(NotFound);
      }
      var j := jobs[next.value].(status := Running(worker, now), attempts := jobs[next.value].attempts + 1);
      jobs := jobs[next.value := j];
      return Ok(Claim(next.value, j.kind, j.entity, j.attempts, j.maxAttempts));
    }

    method CompleteJob(id: int, worker: int) returns (error: Option<Error>)
      modifies this`jobs
      ensures (Contents(), error) == Complete(old(Contents()), id, worker)
    {
      if id !in jobs || !jobs[id].status.Running? || jobs[id].status.owner != worker {
        return Some(Conflict);
      }
      jobs := jobs[id := jobs[id].(status := Succeeded, completedAt := now)];
      return None;
    }

    method FailJob(c: Claim, worker: int) returns (error: Option<Error>)
      modifies this`jobs
      ensures (Contents(), error) == Fail(old(Contents()), c, worker)
    {
      var status := Queued;
      if c.attempts >= c.maxAttempts {
        status := Dead;
      }
      if c.job !in jobs || !jobs[c.job].status.Running? || jobs[c.job].status.owner != worker {
        return Some(Conflict);
      }
      jobs := jobs[c.job := jobs[c.job].(
        status := status,
        availableAt := now + Backoff(c.attempts),
        completedAt := if status.Dead? then now else 0)];
      return None;
    }

    method CompleteAutomatedAnalysis(submission: int, v: Verification, m: Moderation) returns (error: Option<Error>)
      modifies this`submissions
      ensures (Contents(), error) == Analysis(old(Contents()), submission, v, m)
    {
      if submission !in submissions {
        return Some(Conflict);
      }
      var row := submissions[submission];
      if row.verification != Unverified && row.verification != ManualReview {
        return Some(Conflict);
      }
      var publishedAt := None;
      if v == Passed && m == Approved {
        publishedAt := Published(row, now);
      }
      submissions := submissions[submission := row.(verification := v, moderation := m, publishedAt := publishedAt)];
      return None;
    }
  }
}
