/**
 * What each request about copyright, moderation and verification answers and changes,
 * in terms of the columns it reads (internal/store/copyright.go,
 * internal/store/safety.go, internal/store/submissions.go, internal/store/analysis.go),
 * and what a submission that has passed was passed by.
 */
module Rulings {
  import opened Prelude
  import opened Submissions
  import opened Moderation

  // ----- the row of a submission -----

  /** Approved, and published exactly if it has passed, since when it first was. */
  predicate ApprovedFrom(row: Submission, row': Submission, now: int) {
    && row' == row.(moderation := Approved, publishedAt := row'.publishedAt)
    && (row'.publishedAt.Some? <==> row.verification == Passed)
    && (row'.publishedAt.Some? ==> row'.publishedAt == if row.publishedAt.Some? then row.publishedAt else Some(now))
  }

  /** Only the row of the submission has changed, and one decision has been logged. */
  ghost predicate Ruled(db: Db, db': Db, submission: int, d: Decision) {
    && submission in db.submissions && submission in db'.submissions
    && db'.submissions == db.submissions[submission := db'.submissions[submission]]
    && db'.log == db.log + [d] && d.submission == submission
  }

  // ----- moderators and appeals -----

  /** Approving and restoring approve; rejecting and removing only change the status; each is logged with its reason. */
  lemma ModerateAnswers(db: Db, submission: int, action: Action, reason: string)
    ensures var (db', answer) := Moderate(db, submission, action, reason);
            if submission !in db.submissions then answer == Some(NotFound) && db' == db
            else
              && answer.None? && Ruled(db, db', submission, Decision(submission, action, reason))
              && db' == db.(submissions := db'.submissions, log := db'.log)
              && var (row, row') := (db.submissions[submission], db'.submissions[submission]);
                 && (action == Approve || action == Restore ==> ApprovedFrom(row, row', db.now))
                 && (action == Reject ==> row' == row.(moderation := Declined))
                 && (action == Remove ==> row' == row.(moderation := Removed))
  {
  }

  /** The appealed decision rejected or removed its submission, and nothing has been decided about it since. */
  ghost predicate Reversible(db: Db, i: int) {
    && 0 <= i < |db.log| && (db.log[i].action == Reject || db.log[i].action == Remove)
    && db.log[i].submission in db.submissions
    && forall j :: i < j < |db.log| ==> db.log[j].submission != db.log[i].submission
  }

  /** An appeal is settled once; upholding changes nothing else, and a reversal approves the submission. */
  lemma AppealAnswers(db: Db, appeal: int, reversed: bool)
    ensures var (db', answer) := ReviewAppeal(db, appeal, reversed);
            if !(appeal in db.appeals && db.appeals[appeal].pending && 0 <= db.appeals[appeal].decision < |db.log|) then
              answer == Some(NotFound) && db' == db
            else
              var i := db.appeals[appeal].decision;
              if !reversed then answer.None? && db' == db.(appeals := db.appeals[appeal := Appeal(i, false)])
              else if !Reversible(db, i) then answer == Some(Invalid) && db' == db
              else
                var s := db.log[i].submission;
                && answer.None? && Ruled(db, db', s, Decision(s, Restore, "appeal_reversed"))
                && db' == db.(appeals := db.appeals[appeal := Appeal(i, false)],
                              submissions := db'.submissions, log := db'.log)
                && ApprovedFrom(db.submissions[s], db'.submissions[s], db.now)
  {
    if appeal in db.appeals && 0 <= db.appeals[appeal].decision < |db.log| {
      var i := db.appeals[appeal].decision;
      assert LastDecision(db.log, db.log[i].submission) == i <==>
        forall j :: i < j < |db.log| ==> db.log[j].submission != db.log[i].submission;
    }
  }

  // ----- notices -----

  /** The ways a notice may go. */
  const WAYS: set<(NoticeStatus, NoticeStatus)> := {
    (Received, Reviewing), (Received, Actioned), (Received, Refused), (Received, Closed),
    (Reviewing, Actioned), (Reviewing, Refused), (Reviewing, Closed),
    (Actioned, Restored), (Actioned, Closed), (Countered, Restored), (Countered, Closed), (Restored, Closed)
  }

  /** A review moves the notice along one of its ways, or is refused; restoring needs a submission. */
  lemma ReviewAnswers(db: Db, n: int, to: NoticeStatus)
    ensures var (db', answer) := Review(db, n, to);
            && answer == (if n !in db.notices then Some(NotFound)
                          else if (db.notices[n].status, to) !in WAYS then Some(Invalid)
                          else if to == Restored && db.notices[n].submission.None? then Some(Invalid)
                          else None)
            && (answer.Some? ==> db' == db)
            && (answer.None? ==>
                  && n in db.notices && db'.notices == db.notices[n := db.notices[n].(status := to)]
                  && db' == db.(notices := db'.notices, submissions := db'.submissions, log := db'.log)
                  && (db.notices[n].submission.None? || (to != Actioned && to != Restored) ==>
                        db'.submissions == db.submissions && db'.log == db.log))
  {
  }

  /** The submission stands removed, by a claim, of which only the given one is still open. */
  ghost predicate LastClaimOn(db: Db, submission: int, n: int) {
    && submission in db.submissions && db.submissions[submission].moderation == Removed
    && (forall m :: m in db.notices && m != n && db.notices[m].submission == Some(submission) ==>
          db.notices[m].status != Actioned && db.notices[m].status != Countered)
    && exists i :: LastAbout(db.log, submission, i) && db.log[i].reason == "copyright"
  }

  predicate LastAbout(log: seq<Decision>, submission: int, i: int)
  {
    0 <= i < |log| && log[i].submission == submission
    && forall j :: i < j < |log| ==> log[j].submission != submission
  }

  /** Actioning takes the submission down, and restoring approves it when this is its last open claim. */
  lemma ReviewRules(db: Db, n: int, to: NoticeStatus)
    requires Review(db, n, to).1.None? && db.notices[n].submission.Some?
    requires db.notices[n].submission.value in db.submissions
    ensures var (db', s) := (Review(db, n, to).0, db.notices[n].submission.value);
            if to == Actioned && db.submissions[s].moderation != Removed then
              && Ruled(db, db', s, Decision(s, Remove, "copyright"))
              && db'.submissions[s] == db.submissions[s].(moderation := Removed)
            else if to == Restored && LastClaimOn(db, s, n) then
              && Ruled(db, db', s, Decision(s, Restore, "copyright_claim_resolved"))
              && ApprovedFrom(db.submissions[s], db'.submissions[s], db.now)
            else db'.submissions == db.submissions && db'.log == db.log
  {
    var s := db.notices[n].submission.value;
    var last := LastDecision(db.log, s);
    assert LastReason(db.log, s, "copyright") ==> LastAbout(db.log, s, last);
    assert forall i :: LastAbout(db.log, s, i) ==> i == last;
  }

  /** Only the owner of a submission that is down counters the notice, once. */
  lemma CounterAnswers(db: Db, n: int, user: int)
    ensures var (db', answer) := Counter(db, n, user);
            var mayCounter := && n in db.notices && db.notices[n].status == Actioned && db.notices[n].submission.Some?
                              && db.notices[n].submission.value in db.submissions
                              && db.submissions[db.notices[n].submission.value].user == user;
            && answer == (if !mayCounter then Some(Forbidden) else if n in db.counters then Some(Conflict) else None)
            && (answer.Some? ==> db' == db)
            && (answer.None? ==>
                  db' == db.(notices := db.notices[n := db.notices[n].(status := Countered)],
                             counters := db.counters + {n}))
  {
  }

  // ----- verification -----

  /** A moderator passes only scanned media; a submission that passes while approved is published. */
  lemma VerifyAnswers(db: Db, submission: int, v: Verification)
    ensures var (db', answer) := Verify(db, submission, v);
            if submission !in db.submissions || (v == Passed && db.submissions[submission].media !in db.scanned)
            then answer == Some(Invalid) && db' == db
            else
              && answer.None? && submission in db'.submissions
              && db' == db.(submissions := db.submissions[submission := db'.submissions[submission]])
              && var (row, row') := (db.submissions[submission], db'.submissions[submission]);
                 && row' == row.(verification := v, publishedAt := row'.publishedAt)
                 && (row'.publishedAt.Some? <==> v == Passed && row.moderation == Approved)
                 && (row'.publishedAt.Some? ==>
                       row'.publishedAt == if row.publishedAt.Some? then row.publishedAt else Some(db.now))
  {
  }

  /** A publication is never dated again: while a submission stays published, its time stands. */
  lemma PublicationStands(db: Db, step: Step, s: int)
    requires s in db.submissions && db.submissions[s].publishedAt.Some?
    ensures s in Next(db, step).submissions
    ensures Next(db, step).submissions[s].publishedAt.Some? ==>
              Next(db, step).submissions[s].publishedAt == db.submissions[s].publishedAt
  {
    match step
    case DoReview(n, to) => ReviewStands(db, n, to, s);
    case DoReviewAppeal(a, reversed) => AppealAnswers(db, a, reversed);
    case _ =>
  }

  lemma ReviewStands(db: Db, n: int, to: NoticeStatus, s: int)
    requires s in db.submissions && db.submissions[s].publishedAt.Some?
    ensures var db' := Review(db, n, to).0;
            s in db'.submissions
            && (db'.submissions[s].publishedAt.Some? ==>
                  db'.submissions[s].publishedAt == db.submissions[s].publishedAt)
  {
  }

  /** A worker's verdict is stored for a submission that is open, and publishes one that is passed and approved. */
  lemma AnalysisAnswers(db: Db, submission: int, v: Verification, m: Submissions.Moderation)
    ensures var (db', answer) := CompleteAnalysis(db, submission, v, m);
            if !(submission in db.submissions && db.submissions[submission].verification in {Unverified, ManualReview})
            then answer == Some(Conflict) && db' == db
            else
              && answer.None? && submission in db'.submissions
              && db' == db.(submissions := db.submissions[submission := db'.submissions[submission]])
              && var (row, row') := (db.submissions[submission], db'.submissions[submission]);
                 && row' == row.(verification := v, moderation := m, publishedAt := row'.publishedAt)
                 && (row'.publishedAt.Some? <==> v == Passed && m == Approved)
                 && (row'.publishedAt.Some? ==>
                       row'.publishedAt == if row.publishedAt.Some? then row.publishedAt else Some(db.now))
  {
  }

  /** An analysis fails a submission for its media only after it has rejected them. */
  lemma FailsOnlyRejected(db: Db, w: int)
    requires Next(db, FailRejected(w)) != db
    ensures w in db.analyses && db.analyses[w].MediaRejected?
  {
  }

  /** A worker that is out of attempts leaves a submission that is still pending to a moderator. */
  lemma AbandonReviews(db: Db, s: int)
    ensures Next(db, Abandon(s)) ==
            if s in db.submissions && db.submissions[s].verification == Unverified
            then db.(submissions := db.submissions[s :=
                   db.submissions[s].(verification := ManualReview, moderation := Unmoderated)])
            else db
  {
  }

  /** Nothing new replaces what is there: submissions, notices for one that exists or for none, pending appeals. */
  lemma IntakeAdds(db: Db, n: int, challenge: int, user: int, media: int, target: Option<int>, decision: int)
    ensures Next(db, Submit(n, challenge, user, media)) ==
            if n in db.submissions then db
            else db.(submissions := db.submissions[n :=
                   Submission(challenge, user, media, Unverified, Unmoderated, None)])
    ensures Next(db, File(n, target)) ==
            if n !in db.notices && (target.Some? ==> target.value in db.submissions)
            then db.(notices := db.notices[n := Notice(target, Received)]) else db
    ensures Next(db, DoAppeal(n, decision)) ==
            if n !in db.appeals then db.(appeals := db.appeals[n := Appeal(decision, true)]) else db
  {
  }

  // ----- what passes a submission -----

  /** The step passes the submission: a moderator does, or the analysis of it, unflagged, sure and successful. */
  predicate Passes(db: Db, step: Step, s: int) {
    match step
    case DoVerify(submission, v) => submission == s && v == Passed
    case Assess(w, a, minConfidence) =>
      && w in db.analyses && db.analyses[w].Inspected? && db.analyses[w].submission == s
      && !a.flagged && !a.requiresManualReview && a.confidence >= minConfidence && a.challengePassed
    case _ => false
  }

  predicate HasPassed(db: Db, s: int) { s in db.submissions && db.submissions[s].verification == Passed }

  lemma ReviewPassesNothing(db: Db, n: int, to: NoticeStatus, s: int)
    requires HasPassed(Review(db, n, to).0, s)
    ensures HasPassed(db, s)
  {
  }

  lemma StepPasses(db: Db, step: Step, s: int)
    requires HasPassed(Next(db, step), s) && !HasPassed(db, s)
    ensures Passes(db, step, s)
  {
    match step
    case DoReview(n, to) => ReviewPassesNothing(db, n, to, s);
    case DoReviewAppeal(a, reversed) => AppealAnswers(db, a, reversed);
    case _ =>
  }

  predicate PassesAt(db: Db, steps: seq<Step>, i: int, s: int) {
    0 <= i < |steps| && Passes(Run(db, steps[..i]), steps[i], s)
  }

  /**
   * Over every run, a submission that has passed was passed by a moderator or by an
   * analysis that found nothing to object to and the challenge met; so no flagged,
   * doubtful or failed assessment passes one.
   */
  lemma {:induction false} PassesEarned(db: Db, steps: seq<Step>, s: int)
    requires db.submissions == map[] && HasPassed(Run(db, steps), s)
    ensures exists i :: PassesAt(db, steps, i, s)
  {
    var n := |steps| - 1;
    var front := steps[..n];
    if HasPassed(Run(db, front), s) {
      PassesEarned(db, front, s);
      var i :| PassesAt(db, front, i, s);
      assert front[..i] == steps[..i];
      assert PassesAt(db, steps, i, s);
    } else {
      StepPasses(Run(db, front), steps[n], s);
      assert PassesAt(db, steps, n, s);
    }
  }

  /** An assessment that flags the clip, is unsure, or asks for a moderator sends an open submission to review. */
  lemma DoubtMeansReview(db: Db, w: int, a: Assessment, minConfidence: real)
    requires w in db.analyses && db.analyses[w].Inspected? && db.analyses[w].submission in db.submissions
    requires a.flagged || a.requiresManualReview || a.confidence < minConfidence
    ensures var s := db.analyses[w].submission;
            var (row, row') := (db.submissions[s], Next(db, Assess(w, a, minConfidence)).submissions[s]);
            if row.verification == Unverified || row.verification == ManualReview
            then row' == row.(verification := ManualReview, moderation := Unmoderated, publishedAt := None)
            else row' == row
  {
  }
}
