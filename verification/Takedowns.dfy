/**
 * What copyright claims do to a moderator's decision over a whole run
 * (internal/store/copyright.go): actioning a notice replaces whatever was decided
 * before, except a removal for another reason.
 */
module Takedowns {
  import opened Prelude
  import opened Submissions
  import opened Moderation

  /** Somebody other than a claimant decides about the submission: a moderator, an appeal, or its analysis. */
  predicate DecidesAbout(db: Db, step: Step, submission: int) {
    match step
    case DoModerate(s, _, _) => s == submission
    case DoReviewAppeal(a, reversed) =>
      reversed && a in db.appeals && 0 <= db.appeals[a].decision < |db.log|
      && db.log[db.appeals[a].decision].submission == submission
    case FailRejected(w) => w in db.analyses && db.analyses[w].submission == submission
    case Assess(w, _, _) => w in db.analyses && db.analyses[w].submission == submission
    case Abandon(s) => s == submission
    case _ => false
  }

  ghost predicate NobodyDecides(db: Db, steps: seq<Step>, submission: int) {
    steps != [] ==>
      && NobodyDecides(db, steps[..|steps| - 1], submission)
      && !DecidesAbout(Run(db, steps[..|steps| - 1]), steps[|steps| - 1], submission)
  }

  /** The step moves a notice on the submission. */
  predicate Moves(db: Db, step: Step, submission: int, to: NoticeStatus) {
    && step.DoReview? && step.to == to && step.notice in db.notices
    && db.notices[step.notice].submission == Some(submission) && ValidTransition(db.notices[step.notice].status, to)
  }

  /** A notice on the submission is actioned. */
  predicate Actions(db: Db, step: Step, submission: int) { Moves(db, step, submission, Actioned) }

  /** The last open claim on the submission is restored. */
  predicate Frees(db: Db, step: Step, submission: int) {
    Moves(db, step, submission, Restored) && !OtherOpenClaim(db.notices, submission, step.notice)
  }

  /** Taken down by a claim, with nothing decided since. */
  predicate Down(db: Db, submission: int) {
    && submission in db.submissions && db.submissions[submission].moderation == Removed
    && LastReason(db.log, submission, "copyright")
  }

  /** Removed for another reason, which no claim undoes. */
  predicate RemovedOtherwise(db: Db, submission: int) {
    && submission in db.submissions && db.submissions[submission].moderation == Removed
    && !LastReason(db.log, submission, "copyright")
  }

  // ----- one step -----

  lemma LastReasonLater(log: seq<Decision>, d: Decision, submission: int, reason: string)
    ensures LastReason(log + [d], submission, reason) <==>
            if d.submission == submission then d.reason == reason else LastReason(log, submission, reason)
  {
    assert (log + [d])[..|log|] == log;
  }

  /** Nothing about the submission has been decided, so its status and its last reason are as before. */
  predicate Untouched(db: Db, db': Db, submission: int)
    requires submission in db.submissions
  {
    && submission in db'.submissions
    && db'.submissions[submission].moderation == db.submissions[submission].moderation
    && (LastReason(db'.log, submission, "copyright") <==> LastReason(db.log, submission, "copyright"))
  }

  lemma OtherDecision(db: Db, db': Db, other: int, row: Submission, action: Action, reason: string, submission: int)
    requires submission in db.submissions && other != submission
    requires db'.submissions == db.submissions[other := row]
    requires db'.log == db.log + [Decision(other, action, reason)]
    ensures Untouched(db, db', submission)
  {
    LastReasonLater(db.log, Decision(other, action, reason), submission, "copyright");
  }

  lemma ReviewActions(db: Db, step: Step, submission: int)
    requires submission in db.submissions && Actions(db, step, submission)
    ensures var db' := Next(db, step);
            if RemovedOtherwise(db, submission) then RemovedOtherwise(db', submission) else Down(db', submission)
  {
    if db.submissions[submission].moderation != Removed {
      LastReasonLater(db.log, Decision(submission, Remove, "copyright"), submission, "copyright");
    }
  }

  lemma ReviewFrees(db: Db, step: Step, submission: int)
    requires submission in db.submissions && Frees(db, step, submission)
    ensures var db' := Next(db, step);
            if Down(db, submission)
            then submission in db'.submissions && db'.submissions[submission].moderation == Approved
            else Untouched(db, db', submission)
  {
  }

  lemma ReviewOtherwise(db: Db, step: Step, submission: int)
    requires submission in db.submissions && step.DoReview?
    requires !Actions(db, step, submission) && !Frees(db, step, submission)
    ensures Untouched(db, Next(db, step), submission)
  {
    var db' := Next(db, step);
    if step.notice in db.notices && db.notices[step.notice].submission.Some?
       && ValidTransition(db.notices[step.notice].status, step.to) {
      var other := db.notices[step.notice].submission.value;
      if other != submission && db'.log != db.log {
        var d := db'.log[|db'.log| - 1];
        OtherDecision(db, db', other, db'.submissions[other], d.action, d.reason, submission);
      }
    }
  }

  lemma AppealUntouched(db: Db, step: Step, submission: int)
    requires submission in db.submissions && step.DoReviewAppeal? && !DecidesAbout(db, step, submission)
    ensures Untouched(db, Next(db, step), submission)
  {
    var db' := Next(db, step);
    if db'.log != db.log {
      var d := db'.log[|db'.log| - 1];
      OtherDecision(db, db', d.submission, db'.submissions[d.submission], d.action, d.reason, submission);
    }
  }

  /** A step that neither decides about the submission nor moves a notice on it. */
  lemma OtherwiseUntouched(db: Db, step: Step, submission: int)
    requires submission in db.submissions && !DecidesAbout(db, step, submission)
    requires !Actions(db, step, submission) && !Frees(db, step, submission)
    ensures Untouched(db, Next(db, step), submission)
  {
    match step
    case DoReview(_, _) => ReviewOtherwise(db, step, submission);
    case DoReviewAppeal(_, _) => AppealUntouched(db, step, submission);
    case DoModerate(s, action, reason) =>
      if s in db.submissions {
        OtherDecision(db, Next(db, step), s, Next(db, step).submissions[s], action, reason, submission);
      }
    case _ => assert Next(db, step).log == db.log;
  }

  // ----- runs -----

  predicate ActionsAt(db: Db, steps: seq<Step>, i: int, submission: int) {
    0 <= i < |steps| && Actions(Run(db, steps[..i]), steps[i], submission)
  }

  predicate FreesAt(db: Db, steps: seq<Step>, i: int, submission: int) {
    0 <= i < |steps| && Frees(Run(db, steps[..i]), steps[i], submission)
  }

  /** In the course of the run a notice on the submission is actioned. */
  ghost predicate Claimed(db: Db, steps: seq<Step>, submission: int) {
    exists i :: ActionsAt(db, steps, i, submission)
  }

  /** Taken down by then, at the start or by an actioned notice. */
  ghost predicate DownBefore(db: Db, steps: seq<Step>, submission: int, j: int) {
    Down(db, submission) || exists i :: i < j && ActionsAt(db, steps, i, submission)
  }

  /** Step `j` restores the last open claim after a take-down, and no notice is actioned afterwards. */
  ghost predicate FreedBy(db: Db, steps: seq<Step>, submission: int, j: int) {
    && FreesAt(db, steps, j, submission) && DownBefore(db, steps, submission, j)
    && forall k :: k > j ==> !ActionsAt(db, steps, k, submission)
  }

  ghost predicate Freed(db: Db, steps: seq<Step>, submission: int) {
    exists j :: FreedBy(db, steps, submission, j)
  }

  lemma FrontAgrees(db: Db, steps: seq<Step>, submission: int, i: int)
    requires steps != [] && i < |steps| - 1
    ensures ActionsAt(db, steps[..|steps| - 1], i, submission) <==> ActionsAt(db, steps, i, submission)
    ensures FreesAt(db, steps[..|steps| - 1], i, submission) <==> FreesAt(db, steps, i, submission)
  {
    if 0 <= i {
      assert steps[..|steps| - 1][..i] == steps[..i];
    }
  }

  lemma ClaimedStep(db: Db, steps: seq<Step>, submission: int)
    requires steps != []
    ensures var front := steps[..|steps| - 1];
            Claimed(db, steps, submission) <==>
            Claimed(db, front, submission) || Actions(Run(db, front), steps[|steps| - 1], submission)
  {
    var front := steps[..|steps| - 1];
    if i :| ActionsAt(db, steps, i, submission) {
      if i < |front| { FrontAgrees(db, steps, submission, i); }
    }
    if i :| ActionsAt(db, front, i, submission) {
      FrontAgrees(db, steps, submission, i);
    }
    assert ActionsAt(db, steps, |front|, submission) <==> Actions(Run(db, front), steps[|front|], submission);
  }

  lemma FreedBefore(db: Db, steps: seq<Step>, submission: int, j: int)
    requires steps != [] && j < |steps| - 1 && !ActionsAt(db, steps, |steps| - 1, submission)
    ensures FreedBy(db, steps[..|steps| - 1], submission, j) <==> FreedBy(db, steps, submission, j)
  {
    var front := steps[..|steps| - 1];
    forall i | i < |front|
      ensures ActionsAt(db, front, i, submission) <==> ActionsAt(db, steps, i, submission)
    {
      FrontAgrees(db, steps, submission, i);
    }
    FrontAgrees(db, steps, submission, j);
    if FreedBy(db, front, submission, j) {
      forall k | k > j ensures !ActionsAt(db, steps, k, submission) {
        assert !ActionsAt(db, front, k, submission);
      }
    }
    if FreedBy(db, steps, submission, j) {
      forall k | k > j ensures !ActionsAt(db, front, k, submission) {
        assert !ActionsAt(db, steps, k, submission);
      }
    }
  }

  lemma FreedLast(db: Db, steps: seq<Step>, submission: int)
    requires steps != []
    ensures FreedBy(db, steps, submission, |steps| - 1) <==>
            && FreesAt(db, steps, |steps| - 1, submission)
            && (Down(db, submission) || Claimed(db, steps[..|steps| - 1], submission))
  {
    var n, front := |steps| - 1, steps[..|steps| - 1];
    if i :| i < n && ActionsAt(db, steps, i, submission) {
      FrontAgrees(db, steps, submission, i);
    }
    if i :| ActionsAt(db, front, i, submission) {
      FrontAgrees(db, steps, submission, i);
    }
  }

  /** How the last step changes whether the claims have been resolved. */
  lemma FreedStep(db: Db, steps: seq<Step>, submission: int)
    requires steps != []
    ensures var (front, last) := (steps[..|steps| - 1], steps[|steps| - 1]);
            var mid := Run(db, front);
            Freed(db, steps, submission) <==>
            if Actions(mid, last, submission) then false
            else
              || Freed(db, front, submission)
              || (Frees(mid, last, submission) && (Down(db, submission) || Claimed(db, front, submission)))
  {
    var front, n := steps[..|steps| - 1], |steps| - 1;
    FreedLast(db, steps, submission);
    assert FreesAt(db, steps, n, submission) <==> Frees(Run(db, front), steps[n], submission);
    if Actions(Run(db, front), steps[n], submission) {
      assert ActionsAt(db, steps, n, submission);
    } else {
      if j :| FreedBy(db, steps, submission, j) && j < n {
        FreedBefore(db, steps, submission, j);
      }
      if j :| FreedBy(db, front, submission, j) {
        FreedBefore(db, steps, submission, j);
      }
    }
  }

  /**
   * Over any run in which nobody else decides about it: a submission removed for another
   * reason than a claim stays so. Any other is approved in the end exactly when the
   * last open claim on it was restored after it had been taken down, and removed exactly
   * when it was taken down otherwise; a rejection is kept only if no notice is actioned.
   */
  lemma {:induction false} ClaimsDecide(db: Db, steps: seq<Step>, submission: int)
    requires submission in db.submissions && NobodyDecides(db, steps, submission)
    ensures var (before, end) := (db.submissions[submission].moderation, Run(db, steps));
            && submission in end.submissions
            && (if RemovedOtherwise(db, submission) then RemovedOtherwise(end, submission)
                else if Freed(db, steps, submission) then end.submissions[submission].moderation == Approved
                else if Claimed(db, steps, submission) || Down(db, submission) then Down(end, submission)
                else end.submissions[submission].moderation == before != Removed)
  {
    if steps != [] {
      var front, last := steps[..|steps| - 1], steps[|steps| - 1];
      var mid := Run(db, front);
      ClaimsDecide(db, front, submission);
      ClaimedStep(db, steps, submission);
      FreedStep(db, steps, submission);
      if Actions(mid, last, submission) {
        ReviewActions(mid, last, submission);
      } else if Frees(mid, last, submission) {
        ReviewFrees(mid, last, submission);
      } else {
        OtherwiseUntouched(mid, last, submission);
      }
    }
  }
}
