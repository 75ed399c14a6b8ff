/**
 * Copyright claims, moderation and publication (internal/store/copyright.go,
 * internal/store/safety.go, internal/store/submissions.go, internal/store/analysis.go).
 */
module Moderation {
  import opened Prelude
  import opened Submissions

  datatype NoticeStatus = Received | Reviewing | Actioned | Refused | Countered | Restored | Closed

  datatype Notice = Notice(submission: Option<int>, status: NoticeStatus)

  datatype Action = Approve | Reject | Remove | Restore

  /** A row of `moderation_actions` that decides about a submission. */
  datatype Decision = Decision(submission: int, action: Action, reason: string)

  datatype Appeal = Appeal(decision: int, pending: bool)

  /** Where `analyzeSubmission` stands between two of its statements. */
  datatype Analysis =
    | Loaded(submission: int, media: int)
    | MediaRejected(submission: int)
    | Inspected(submission: int, media: int)

  /**
   * `log` holds the decisions in the order of `created_at`; a decision's ID is its
   * position. `scanned` and `rejected` are the media with that mark; `analyses` says how
   * far each worker has come with the submission it analyzes.
   */
  datatype Db = Db(
    now: int,
    submissions: map<int, Submission>,
    scanned: set<int>,
    rejected: set<int>,
    notices: map<int, Notice>,
    counters: set<int>,
    log: seq<Decision>,
    appeals: map<int, Appeal>,
    analyses: map<int, Analysis>)

  /** The table of `validCopyrightTransition`. */
  predicate ValidTransition(from: NoticeStatus, to: NoticeStatus) {
    match from
    case Received => to == Reviewing || to == Actioned || to == Refused || to == Closed
    case Reviewing => to == Actioned || to == Refused || to == Closed
    case Actioned => to == Restored || to == Closed
    case Countered => to == Restored || to == Closed
    case Restored => to == Closed
    case _ => false
  }

  /** A claim that keeps its submission down. */
  predicate OpenClaim(n: Notice) { n.status == Actioned || n.status == Countered }

  predicate OtherOpenClaim(notices: map<int, Notice>, submission: int, notice: int) {
    exists n :: n in notices && n != notice && notices[n].submission == Some(submission) && OpenClaim(notices[n])
  }

  /** The position of the last decision about a submission, or -1. */
  function LastDecision(log: seq<Decision>, submission: int): (i: int)
    ensures -1 <= i < |log|
    ensures i >= 0 ==> log[i].submission == submission
    ensures forall j :: i < j < |log| ==> log[j].submission != submission
  {
    if log == [] then -1
    else if log[|log| - 1].submission == submission then |log| - 1
    else LastDecision(log[..|log| - 1], submission)
  }

  predicate LastReason(log: seq<Decision>, submission: int, reason: string) {
    LastDecision(log, submission) >= 0 && log[LastDecision(log, submission)].reason == reason
  }

  /** Approval publishes a submission that has passed verification. */
  function ApprovedRow(s: Submission, now: int): Submission {
    s.(moderation := Approved, publishedAt := if s.verification == Passed then Published(s, now) else None)
  }

  // ----- the transactions -----

  function WithRow(db: Db, submission: int, row: Submission): Db {
    db.(submissions := db.submissions[submission := row])
  }

  function Decide(db: Db, submission: int, row: Submission, action: Action, reason: string): Db {
    WithRow(db, submission, row).(log := db.log + [Decision(submission, action, reason)])
  }

  /** What actioning a notice does to its submission. */
  function TakeDown(db: Db, submission: int): Db {
    if submission in db.submissions && db.submissions[submission].moderation != Removed
    then Decide(db, submission, db.submissions[submission].(moderation := Removed), Remove, "copyright")
    else db
  }

  /** The condition under which restoring a notice approves its submission again. */
  predicate Restorable(db: Db, submission: int, notice: int) {
    && submission in db.submissions && db.submissions[submission].moderation == Removed
    && !OtherOpenClaim(db.notices, submission, notice)
    && LastReason(db.log, submission, "copyright")
  }

  function PutBack(db: Db, submission: int, notice: int): Db {
    if Restorable(db, submission, notice)
    then Decide(db, submission, ApprovedRow(db.submissions[submission], db.now), Restore, "copyright_claim_resolved")
    else db
  }

  function SetStatus(db: Db, notice: int, status: NoticeStatus): Db
    requires notice in db.notices
  {
    db.(notices := db.notices[notice := db.notices[notice].(status := status)])
  }

  function Review(db: Db, notice: int, to: NoticeStatus): (Db, Option<Error>) {
    if notice !in db.notices then (db, Some(NotFound))
    else
      var n := db.notices[notice];
      if !ValidTransition(n.status, to) then (db, Some(Invalid))
      else if to == Restored && n.submission.None? then (db, Some(Invalid))
      else if to == Actioned && n.submission.Some? then
        (SetStatus(TakeDown(db, n.submission.value), notice, to), None)
      else if to == Restored then
        (SetStatus(PutBack(db, n.submission.value, notice), notice, to), None)
      else
        (SetStatus(db, notice, to), None)
  }

  function Counter(db: Db, notice: int, user: int): (Db, Option<Error>) {
    if !(&& notice in db.notices && db.notices[notice].status == Actioned && db.notices[notice].submission.Some?
         && db.notices[notice].submission.value in db.submissions
         && db.submissions[db.notices[notice].submission.value].user == user) then (db, Some(Forbidden))
    else if notice in db.counters then (db, Some(Conflict))
    else (SetStatus(db, notice, Countered).(counters := db.counters + {notice}), None)
  }

  function Moderate(db: Db, submission: int, action: Action, reason: string): (Db, Option<Error>) {
    if submission !in db.submissions then (db, Some(NotFound))
    else
      var s := db.submissions[submission];
      var row := match action
        case Approve => ApprovedRow(s, db.now)
        case Restore => ApprovedRow(s, db.now)
        case Reject => s.(moderation := Declined)
        case Remove => s.(moderation := Removed);
      (Decide(db, submission, row, action, reason), None)
  }

  /** A reversal needs the appealed decision to be the last one about its submission. */
  function ReviewAppeal(db: Db, appeal: int, reversed: bool): (Db, Option<Error>) {
    if appeal !in db.appeals || !db.appeals[appeal].pending || !(0 <= db.appeals[appeal].decision < |db.log|) then
      (db, Some(NotFound))
    else
      var i := db.appeals[appeal].decision;
      var d := db.log[i];
      var settled := db.(appeals := db.appeals[appeal := Appeal(i, false)]);
      if !reversed then (settled, None)
      else if d.action != Reject && d.action != Remove then (db, Some(Invalid))
      else if d.submission !in db.submissions || LastDecision(db.log, d.submission) != i then (db, Some(Invalid))
      else
        (Decide(settled, d.submission, ApprovedRow(db.submissions[d.submission], db.now), Restore, "appeal_reversed"),
         None)
  }

  /** `CompleteAutomatedAnalysis`; a row that is already decided is a conflict. */
  function CompleteAnalysis(db: Db, submission: int, v: Verification, m: Moderation): (Db, Option<Error>) {
    if submission in db.submissions && Undecided(db.submissions[submission])
    then (WithRow(db, submission, Analyzed(db.submissions[submission], v, m, db.now)), None)
    else (db, Some(Conflict))
  }

  /** What the provider says about a clip. */
  datatype Assessment = Assessment(flagged: bool, requiresManualReview: bool, confidence: real, challengePassed: bool)

  /** What becomes of an inspected submission. */
  function Verdict(a: Assessment, minConfidence: real): (Verification, Moderation) {
    if a.flagged || a.requiresManualReview || a.confidence < minConfidence then (ManualReview, Unmoderated)
    else if a.challengePassed then (Passed, Approved)
    else (Failed, Approved)
  }

  /** A manual pass needs scanned media. */
  function Verify(db: Db, submission: int, v: Verification): (Db, Option<Error>) {
    if submission !in db.submissions || (v == Passed && db.submissions[submission].media !in db.scanned)
    then (db, Some(Invalid))
    else (WithRow(db, submission, Verified(db.submissions[submission], v, db.now)), None)
  }

  // ----- the store -----

  class Store {
    var now: int
    var submissions: map<int, Submission>
    var scanned: set<int>
    var rejected: set<int>
    var notices: map<int, Notice>
    var counters: set<int>
    var log: seq<Decision>
    var appeals: map<int, Appeal>
    ghost var analyses: map<int, Analysis>

    ghost function Contents(): Db
      reads this
    {
      Db(now, submissions, scanned, rejected, notices, counters, log, appeals, analyses)
    }

    constructor (now: int)
      ensures Contents() == Db(now, map[], {}, {}, map[], {}, [], map[], map[])
    {
      this.now, submissions, scanned, rejected, notices, counters := now, map[], {}, {}, map[], {};
      log, appeals, analyses := [], map[], map[];
    }

    method InsertAction(submission: int, action: Action, reason: string)
      modifies this`log
      ensures log == old(log) + [Decision(submission, action, reason)]
    {
      log := log + [Decision(submission, action, reason)];
    }

    method ReviewCopyrightNotice(notice: int, to: NoticeStatus) returns (error: Option<Error>)
      modifies this`submissions, this`notices, this`log
      ensures (Contents(), error) == Review(old(Contents()), notice, to)
    {
      if notice !in notices {
        return Some(NotFound);
      }
      var n := notices[notice];
      if !ValidTransition(n.status, to) {
        return Some(Invalid);
      }
      if to == Actioned && n.submission.Some? {
        var s := n.submission.value;
        if s in submissions && submissions[s].moderation != Removed {
          submissions := submissions[s := submissions[s].(moderation := Removed)];
          InsertAction(s, Remove, "copyright");
        }
      } else if to == Restored {
        if n.submission.None? {
          return Some(Invalid);
        }
        var s := n.submission.value;
        if s in submissions && submissions[s].moderation == Removed
           && !OtherOpenClaim(notices, s, notice) && LastReason(log, s, "copyright") {
          var publishedAt := None;
          if submissions[s].verification == Passed {
            publishedAt := Published(submissions[s], now);
          }
          submissions := submissions[s := submissions[s].(moderation := Approved, publishedAt := publishedAt)];
          InsertAction(s, Restore, "copyright_claim_resolved");
        }
      }
      notices := notices[notice := n.(status := to)];
      return None;
    }

    method CreateCounterNotice(notice: int, user: int) returns (error: Option<Error>)
      modifies this`notices, this`counters
      ensures (Contents(), error) == Counter(old(Contents()), notice, user)
    {
      var ownsSubmission := false;
      if notice in notices && notices[notice].submission.Some? && notices[notice].submission.value in submissions {
        ownsSubmission :=
          notices[notice].status == Actioned && submissions[notices[notice].submission.value].user == user;
      }
      if !ownsSubmission {
        return Some(Forbidden);
      }
      if notice in counters {
        return Some(Conflict);
      }
      counters := counters + {notice};
      notices := notices[notice := notices[notice].(status := Countered)];
      return None;
    }

    method CreateModerationAction(submission: int, action: Action, reason: string) returns (error: Option<Error>)
      modifies this`submissions, this`log
      ensures (Contents(), error) == Moderate(old(Contents()), submission, action, reason)
    {
      if submission !in submissions {
        return Some(NotFound);
      }
      var row := submissions[submission];
      match action {
        case Approve => row := ApprovedRow(row, now);
        case Restore => row := ApprovedRow(row, now);
        case Reject => row := row.(moderation := Declined);
        case Remove => row := row.(moderation := Removed);
      }
      submissions := submissions[submission := row];
      InsertAction(submission, action, reason);
      return None;
    }

    method ResolveAppeal(appeal: int, reversed: bool) returns (error: Option<Error>)
      modifies this`submissions, this`log, this`appeals
      ensures (Contents(), error) == ReviewAppeal(old(Contents()), appeal, reversed)
    {
      if appeal !in appeals || !appeals[appeal].pending {
        return Some(NotFound);
      }
      var i := appeals[appeal].decision;
      if !(0 <= i < |log|) {
        return Some(NotFound);
      }
      if reversed {
        var d := log[i];
        if d.action != Reject && d.action != Remove {
          return Some(Invalid);
        }
        if d.submission !in submissions || LastDecision(log, d.submission) != i {
          return Some(Invalid);
        }
        submissions := submissions[d.submission := ApprovedRow(submissions[d.submission], now)];
        InsertAction(d.submission, Restore, "appeal_reversed");
      }
      appeals := appeals[appeal := Appeal(i, false)];
      return None;
    }

    method UpdateVerification(submission: int, v: Verification) returns (error: Option<Error>)
      modifies this`submissions
      ensures (Contents(), error) == Verify(old(Contents()), submission, v)
    {
      if submission !in submissions {
        return Some(Invalid);
      }
      var row := submissions[submission];
      if v == Passed && row.media !in scanned {
        return Some(Invalid);
      }
      var publishedAt := None;
      if v == Passed && row.moderation == Approved {
        publishedAt := Published(row, now);
      }
      submissions := submissions[submission := row.(verification := v, publishedAt := publishedAt)];
      return None;
    }

    method CompleteAutomatedAnalysis(submission: int, v: Verification, m: Moderation) returns (error: Option<Error>)
      modifies this`submissions
      ensures (Contents(), error) == CompleteAnalysis(old(Contents()), submission, v, m)
    {
      if submission !in submissions || !Undecided(submissions[submission]) {
        return Some(Conflict);
      }
      submissions := submissions[submission := Analyzed(submissions[submission], v, m, now)];
      return None;
    }

    method UpdateMediaInspection(media: int)
      modifies this`scanned
      ensures scanned == old(scanned) + {media}
    {
      scanned := scanned + {media};
    }

    method RejectMediaUpload(media: int)
      modifies this`rejected
      ensures rejected == old(rejected) + {media}
    {
      rejected := rejected + {media};
    }
  }

  // ----- runs -----

  datatype Step =
    | Tick(elapsed: nat)
    | Submit(submission: int, challenge: int, user: int, media: int)
    | LoadInput(worker: int, submission: int)
    | RejectMedia(worker: int)
    | FailRejected(worker: int)
    | Inspect(worker: int)
    | Assess(worker: int, assessment: Assessment, minConfidence: real)
    | Quit(worker: int)
    | Abandon(submission: int)
    | File(notice: int, target: Option<int>)
    | DoReview(notice: int, to: NoticeStatus)
    | DoCounter(notice: int, user: int)
    | DoModerate(submission: int, action: Action, reason: string)
    | DoAppeal(appeal: int, decision: int)
    | DoReviewAppeal(appeal: int, reversed: bool)
    | DoVerify(submission: int, v: Verification)

  function At(db: Db, w: int, phase: Analysis): Db { db.(analyses := db.analyses[w := phase]) }

  function Gone(db: Db, w: int): Db { db.(analyses := db.analyses - {w}) }

  /** One transaction, or one statement of a worker. A statement out of place changes nothing. */
  function Next(db: Db, step: Step): Db {
    match step
    case Tick(elapsed) => db.(now := db.now + elapsed)
    case Submit(s, challenge, user, media) =>
      if s in db.submissions then db else WithRow(db, s, NewSubmission(challenge, user, media))
    case LoadInput(w, s) =>
      if s !in db.submissions then db else At(db, w, Loaded(s, db.submissions[s].media))
    case RejectMedia(w) =>
      if !(w in db.analyses && db.analyses[w].Loaded?) then db
      else At(db, w, MediaRejected(db.analyses[w].submission)).(rejected := db.rejected + {db.analyses[w].media})
    case FailRejected(w) =>
      if !(w in db.analyses && db.analyses[w].MediaRejected?) then db
      else Gone(CompleteAnalysis(db, db.analyses[w].submission, Failed, Declined).0, w)
    case Inspect(w) =>
      if !(w in db.analyses && db.analyses[w].Loaded?) then db
      else At(db, w, Inspected(db.analyses[w].submission, db.analyses[w].media)).(
             scanned := db.scanned + {db.analyses[w].media})
    case Assess(w, a, minConfidence) =>
      if !(w in db.analyses && db.analyses[w].Inspected?) then db
      else
        var (v, m) := Verdict(a, minConfidence);
        Gone(CompleteAnalysis(db, db.analyses[w].submission, v, m).0, w)
    case Quit(w) => Gone(db, w)
    case Abandon(s) =>
      if s in db.submissions && db.submissions[s].verification == Unverified
      then WithRow(db, s, Abandoned(db.submissions[s])) else db
    case File(n, target) =>
      if n in db.notices || (target.Some? && target.value !in db.submissions) then db
      else db.(notices := db.notices[n := Notice(target, Received)])
    case DoReview(n, to) => Review(db, n, to).0
    case DoCounter(n, user) => Counter(db, n, user).0
    case DoModerate(s, action, reason) => Moderate(db, s, action, reason).0
    case DoAppeal(a, d) => if a in db.appeals then db else db.(appeals := db.appeals[a := Appeal(d, true)])
    case DoReviewAppeal(a, reversed) => ReviewAppeal(db, a, reversed).0
    case DoVerify(s, v) => Verify(db, s, v).0
  }

  function Run(db: Db, steps: seq<Step>): Db {
    if steps == [] then db else Next(Run(db, steps[..|steps| - 1]), steps[|steps| - 1])
  }

  // ----- publication -----

  /** Published exactly describes what may be seen: passed, approved and scanned. */
  predicate SoundRow(s: Submission, scanned: set<int>) {
    && (s.verification == Passed && s.moderation == Approved ==> s.publishedAt.Some?)
    && (s.publishedAt.Some? ==> s.verification == Passed)
    && (s.verification == Passed ==> s.media in scanned)
  }

  /** A worker works on the media of its submission, and has scanned them once it has inspected them. */
  predicate SoundAnalysis(db: Db, a: Analysis) {
    && a.submission in db.submissions
    && (a.Loaded? || a.Inspected? ==> db.submissions[a.submission].media == a.media)
    && (a.Inspected? ==> a.media in db.scanned)
  }

  ghost predicate SoundRows(db: Db) {
    && (forall s :: s in db.submissions ==> SoundRow(db.submissions[s], db.scanned))
    && (forall w :: w in db.analyses ==> SoundAnalysis(db, db.analyses[w]))
  }

  lemma ReviewSoundRow(db: Db, n: int, to: NoticeStatus, s: int)
    requires SoundRows(db) && s in Review(db, n, to).0.submissions
    ensures SoundRow(Review(db, n, to).0.submissions[s], db.scanned) && Review(db, n, to).0.scanned == db.scanned
  {
    if s in db.submissions {
      assert SoundRow(db.submissions[s], db.scanned);
    }
  }

  lemma AppealSoundRow(db: Db, a: int, reversed: bool, s: int)
    requires SoundRows(db) && s in ReviewAppeal(db, a, reversed).0.submissions
    ensures SoundRow(ReviewAppeal(db, a, reversed).0.submissions[s], db.scanned)
    ensures ReviewAppeal(db, a, reversed).0.scanned == db.scanned
  {
    if s in db.submissions {
      assert SoundRow(db.submissions[s], db.scanned);
    }
  }

  /** An analysis passes a submission only at the statement after the inspection of its media. */
  lemma AssessSoundRow(db: Db, w: int, a: Assessment, minConfidence: real, s: int)
    requires SoundRows(db) && s in Next(db, Assess(w, a, minConfidence)).submissions
    ensures SoundRow(Next(db, Assess(w, a, minConfidence)).submissions[s], db.scanned)
    ensures Next(db, Assess(w, a, minConfidence)).scanned == db.scanned
  {
    if w in db.analyses {
      assert SoundAnalysis(db, db.analyses[w]);
    }
  }

  lemma StepSoundRow(db: Db, step: Step, s: int)
    requires SoundRows(db) && s in Next(db, step).submissions
    ensures SoundRow(Next(db, step).submissions[s], Next(db, step).scanned)
  {
    match step
    case DoReview(n, to) => ReviewSoundRow(db, n, to, s);
    case DoReviewAppeal(a, reversed) => AppealSoundRow(db, a, reversed, s);
    case Assess(w, a, minConfidence) => AssessSoundRow(db, w, a, minConfidence, s);
    case _ =>
  }

  predicate KeepsMedia(db: Db, db': Db) {
    && db.scanned <= db'.scanned
    && (forall s :: s in db.submissions ==> s in db'.submissions && db'.submissions[s].media == db.submissions[s].media)
  }

  lemma ReviewKeepsMedia(db: Db, n: int, to: NoticeStatus)
    ensures KeepsMedia(db, Review(db, n, to).0)
  {
  }

  lemma AppealKeepsMedia(db: Db, a: int, reversed: bool)
    ensures KeepsMedia(db, ReviewAppeal(db, a, reversed).0)
  {
  }

  /** Rows keep their media, and what was scanned stays scanned. */
  lemma StepKeepsMedia(db: Db, step: Step)
    ensures KeepsMedia(db, Next(db, step))
  {
    match step
    case DoReview(n, to) => ReviewKeepsMedia(db, n, to);
    case DoReviewAppeal(a, reversed) => AppealKeepsMedia(db, a, reversed);
    case _ =>
  }

  lemma StepSoundAnalysis(db: Db, step: Step, w: int)
    requires SoundRows(db) && w in Next(db, step).analyses
    ensures SoundAnalysis(Next(db, step), Next(db, step).analyses[w])
  {
    StepKeepsMedia(db, step);
    if w in db.analyses {
      StaysSound(db, Next(db, step), db.analyses[w]);
    }
    if (step.LoadInput? || step.RejectMedia? || step.Inspect?) && step.worker == w {
      AdvanceSound(db, step);
    } else {
      OthersStay(db, step, w);
    }
  }

  lemma OthersStay(db: Db, step: Step, w: int)
    requires w in Next(db, step).analyses
    requires !((step.LoadInput? || step.RejectMedia? || step.Inspect?) && step.worker == w)
    ensures w in db.analyses && Next(db, step).analyses[w] == db.analyses[w]
  {
    match step
    case DoReview(n, to) => ReviewKeepsAnalyses(db, n, to);
    case DoReviewAppeal(a, reversed) => AppealKeepsAnalyses(db, a, reversed);
    case _ =>
  }

  lemma ReviewKeepsAnalyses(db: Db, n: int, to: NoticeStatus)
    ensures Review(db, n, to).0.analyses == db.analyses
  {
  }

  lemma AppealKeepsAnalyses(db: Db, a: int, reversed: bool)
    ensures ReviewAppeal(db, a, reversed).0.analyses == db.analyses
  {
  }

  lemma StaysSound(db: Db, db': Db, a: Analysis)
    requires SoundAnalysis(db, a) && KeepsMedia(db, db')
    ensures SoundAnalysis(db', a)
  {
  }

  lemma AdvanceSound(db: Db, step: Step)
    requires SoundRows(db) && (step.LoadInput? || step.RejectMedia? || step.Inspect?)
    requires step.worker in Next(db, step).analyses
    ensures SoundAnalysis(Next(db, step), Next(db, step).analyses[step.worker])
  {
    if step.worker in db.analyses {
      assert SoundAnalysis(db, db.analyses[step.worker]);
    }
  }

  lemma StepSound(db: Db, step: Step)
    requires SoundRows(db)
    ensures SoundRows(Next(db, step))
  {
    forall s | s in Next(db, step).submissions
      ensures SoundRow(Next(db, step).submissions[s], Next(db, step).scanned)
    {
      StepSoundRow(db, step, s);
    }
    forall w | w in Next(db, step).analyses
      ensures SoundAnalysis(Next(db, step), Next(db, step).analyses[w])
    {
      StepSoundAnalysis(db, step, w);
    }
  }

  lemma {:induction false} RunSound(db: Db, steps: seq<Step>)
    requires SoundRows(db)
    ensures SoundRows(Run(db, steps))
  {
    if steps != [] {
      RunSound(db, steps[..|steps| - 1]);
      StepSound(Run(db, steps[..|steps| - 1]), steps[|steps| - 1]);
    }
  }

  /** Over every run of every step, a visible submission is published, and a published one has passed a scan. */
  lemma {:induction false} PublicationInvariant(db: Db, steps: seq<Step>, s: int)
    requires db.submissions == map[] && db.analyses == map[]
    requires s in Run(db, steps).submissions
    ensures SoundRow(Run(db, steps).submissions[s], Run(db, steps).scanned)
  {
    RunSound(db, steps);
  }

  // ----- analyzeSubmission -----

  /** What becomes of the clip in the media processor and the object storage. */
  datatype Inspection = Clean | Unacceptable | Unavailable

  /** The statements of one analysis; `None` is a failing provider, which ends it with an error. */
  function Script(
    w: int, submission: int, inspection: Inspection, assessment: Option<Assessment>, minConfidence: real): seq<Step>
  {
    match inspection
    case Unavailable => [LoadInput(w, submission), Quit(w)]
    case Unacceptable => [LoadInput(w, submission), RejectMedia(w), FailRejected(w)]
    case Clean =>
      [LoadInput(w, submission), Inspect(w),
       if assessment.Some? then Assess(w, assessment.value, minConfidence) else Quit(w)]
  }

  /** The provider objects to nothing and is sure enough. */
  predicate Cleared(a: Assessment, minConfidence: real) {
    !a.flagged && !a.requiresManualReview && minConfidence <= a.confidence
  }

  /** When an analysis has which result, for a submission that is still open, and that no other has one. */
  predicate Outcomes(
    before: Verification, inspection: Inspection, assessment: Option<Assessment>, minConfidence: real,
    r: Result<(Verification, Moderation)>)
  {
    var open := before == Unverified || before == ManualReview;
    var assessed := open && inspection.Clean? && assessment.Some?;
    && (r == Ok((Passed, Approved)) <==>
        assessed && Cleared(assessment.value, minConfidence) && assessment.value.challengePassed)
    && (r == Ok((Failed, Approved)) <==>
        assessed && Cleared(assessment.value, minConfidence) && !assessment.value.challengePassed)
    && (r == Ok((ManualReview, Unmoderated)) <==> assessed && !Cleared(assessment.value, minConfidence))
    && (r == Ok((Failed, Declined)) <==> open && inspection.Unacceptable?)
    && (r.Err? <==> !assessed && !(open && inspection.Unacceptable?))
    && (r == Err(Conflict) <==>
        !open && (inspection.Unacceptable? || (inspection.Clean? && assessment.Some?)))
  }

  /**
   * Media are rejected, and the submission failed; or they are marked as scanned before
   * the provider is asked, and only then can the submission pass.
   */
  method AnalyzeSubmission(
    store: Store, w: int, submission: int, inspection: Inspection, assessment: Option<Assessment>, minConfidence: real)
    returns (r: Result<(Verification, Moderation)>)
    requires w !in store.analyses
    modifies store`submissions, store`scanned, store`rejected, store`analyses
    ensures store.Contents() == Run(old(store.Contents()), Script(w, submission, inspection, assessment, minConfidence))
    ensures r.Ok? ==>
              && submission in store.submissions && !inspection.Unavailable?
              && (store.submissions[submission].verification, store.submissions[submission].moderation) == r.value
              && (r.value.0 == Passed ==>
                    inspection.Clean? && assessment.Some? && store.submissions[submission].media in store.scanned)
    ensures r.Err? ==> store.submissions == old(store.submissions)
    ensures submission !in old(store.submissions) ==> r == Err(NotFound)
    ensures submission in old(store.submissions) ==>
              Outcomes(old(store.submissions)[submission].verification, inspection, assessment, minConfidence, r)
  {
    ghost var before := store.Contents();
    ScriptRuns(before, w, submission, inspection, assessment, minConfidence);
    if submission !in store.submissions {
      return Err(NotFound);
    }
    var media := store.submissions[submission].media;
    if inspection.Unavailable? {
      return Err(Invalid);
    }
    if inspection.Unacceptable? {
      store.RejectMediaUpload(media);
      var conflict := store.CompleteAutomatedAnalysis(submission, Failed, Declined);
      return if conflict.Some? then Err(conflict.value) else Ok((Failed, Declined));
    }
    store.UpdateMediaInspection(media);
    if assessment.None? {
      return Err(Invalid);
    }
    var (v, m) := Verdict(assessment.value, minConfidence);
    var conflict := store.CompleteAutomatedAnalysis(submission, v, m);
    return if conflict.Some? then Err(conflict.value) else Ok((v, m));
  }

  /** What the statements of an undisturbed analysis come to. */
  lemma ScriptRuns(
    db: Db, w: int, submission: int, inspection: Inspection, assessment: Option<Assessment>, minConfidence: real)
    requires w !in db.analyses
    ensures var end := Run(db, Script(w, submission, inspection, assessment, minConfidence));
            if submission !in db.submissions || inspection.Unavailable? then end == db
            else
              var media := db.submissions[submission].media;
              match inspection {
                case Unacceptable =>
                  end == CompleteAnalysis(db.(rejected := db.rejected + {media}), submission, Failed, Declined).0
                case Clean =>
                  var scanned := db.(scanned := db.scanned + {media});
                  end == if assessment.None? then scanned
                         else
                           var (v, m) := Verdict(assessment.value, minConfidence);
                           CompleteAnalysis(scanned, submission, v, m).0
              }
  {
    if submission !in db.submissions || inspection.Unavailable? {
      IdleScript(db, w, submission, inspection, assessment, minConfidence);
    } else if inspection.Clean? {
      CleanScript(db, w, submission, assessment, minConfidence);
    } else {
      RejectedScript(db, w, submission);
    }
  }

  lemma Dropped(analyses: map<int, Analysis>, w: int, phase: Analysis)
    requires w !in analyses
    ensures analyses[w := phase] - {w} == analyses && analyses - {w} == analyses
  {
  }

  lemma IdleScript(
    db: Db, w: int, submission: int, inspection: Inspection, assessment: Option<Assessment>, minConfidence: real)
    requires w !in db.analyses && (submission !in db.submissions || inspection.Unavailable?)
    ensures Run(db, Script(w, submission, inspection, assessment, minConfidence)) == db
  {
    var script := Script(w, submission, inspection, assessment, minConfidence);
    Dropped(db.analyses, w, if submission in db.submissions then Loaded(submission, db.submissions[submission].media)
                            else MediaRejected(submission));
    if inspection.Unavailable? {
      RunTwo(db, script[0], script[1]);
    } else {
      RunThree(db, script[0], script[1], script[2]);
      assert Next(db, script[0]) == db && Next(db, script[1]) == db && Next(db, script[2]) == db;
    }
  }

  lemma RejectedScript(db: Db, w: int, submission: int)
    requires w !in db.analyses && submission in db.submissions
    ensures Run(db, [LoadInput(w, submission), RejectMedia(w), FailRejected(w)]) ==
            CompleteAnalysis(db.(rejected := db.rejected + {db.submissions[submission].media}),
                             submission, Failed, Declined).0
  {
    var media := db.submissions[submission].media;
    var loaded := db.(analyses := db.analyses[w := Loaded(submission, media)]);
    var rejected := db.(rejected := db.rejected + {media}, analyses := db.analyses[w := MediaRejected(submission)]);
    assert Next(db, LoadInput(w, submission)) == loaded;
    assert Next(loaded, RejectMedia(w)) == rejected;
    LastStatement(db, rejected, w, FailRejected(w));
    RunVia(db, loaded, rejected, LoadInput(w, submission), RejectMedia(w), FailRejected(w));
  }

  /** The statement with which an analysis ends stores its verdict and forgets the worker's place. */
  lemma LastStatement(db: Db, at: Db, w: int, step: Step)
    requires w !in db.analyses && w in at.analyses && at.analyses == db.analyses[w := at.analyses[w]]
    requires (step == FailRejected(w) && at.analyses[w].MediaRejected?)
             || (step.Assess? && step.worker == w && at.analyses[w].Inspected?)
    ensures var (v, m) := if step.Assess? then Verdict(step.assessment, step.minConfidence) else (Failed, Declined);
            Next(at, step) == CompleteAnalysis(at.(analyses := db.analyses), at.analyses[w].submission, v, m).0
  {
    Dropped(db.analyses, w, at.analyses[w]);
  }

  lemma RunVia(db: Db, d1: Db, d2: Db, e1: Step, e2: Step, e3: Step)
    requires Next(db, e1) == d1 && Next(d1, e2) == d2
    ensures Run(db, [e1, e2, e3]) == Next(d2, e3)
  {
    RunThree(db, e1, e2, e3);
  }

  lemma CleanScript(db: Db, w: int, submission: int, assessment: Option<Assessment>, minConfidence: real)
    requires w !in db.analyses && submission in db.submissions
    ensures var scanned := db.(scanned := db.scanned + {db.submissions[submission].media});
            Run(db, Script(w, submission, Clean, assessment, minConfidence)) ==
            if assessment.None? then scanned
            else
              var (v, m) := Verdict(assessment.value, minConfidence);
              CompleteAnalysis(scanned, submission, v, m).0
  {
    var media, script := db.submissions[submission].media, Script(w, submission, Clean, assessment, minConfidence);
    var loaded := db.(analyses := db.analyses[w := Loaded(submission, media)]);
    var inspected := db.(scanned := db.scanned + {media}, analyses := db.analyses[w := Inspected(submission, media)]);
    assert Next(db, script[0]) == loaded;
    assert Next(loaded, script[1]) == inspected;
    if assessment.Some? {
      LastStatement(db, inspected, w, script[2]);
    } else {
      Dropped(db.analyses, w, Inspected(submission, media));
    }
    RunVia(db, loaded, inspected, script[0], script[1], script[2]);
  }

  lemma RunTwo(db: Db, e1: Step, e2: Step)
    ensures Run(db, [e1, e2]) == Next(Next(db, e1), e2)
  {
    assert [e1, e2][..1] == [e1] && [e1][..0] == [];
    assert Run(db, [e1]) == Next(Run(db, [e1][..0]), e1);
  }

  // ----- several claims on one submission -----

  /** Steps that never approve on their own: claims, rejections, removals and verification. */
  predicate ClaimStep(step: Step) {
    match step
    case Assess(_, _, _) => false
    case DoModerate(_, action, _) => action == Reject || action == Remove
    case DoReviewAppeal(_, reversed) => !reversed
    case _ => true
  }

  /** No submission is approved while a claim on it is open. */
  ghost predicate ClaimsRespected(db: Db) {
    forall n :: ClaimRespected(db, n)
  }

  ghost predicate TargetsExist(db: Db) {
    forall n :: n in db.notices && db.notices[n].submission.Some? ==> db.notices[n].submission.value in db.submissions
  }

  predicate ClaimRespected(db: Db, n: int) {
    n in db.notices && OpenClaim(db.notices[n]) && db.notices[n].submission.Some? ==>
      var s := db.notices[n].submission.value;
      s in db.submissions && db.submissions[s].moderation != Approved
  }

  lemma ReviewRespectsClaims(db: Db, n: int, to: NoticeStatus)
    requires ClaimsRespected(db) && TargetsExist(db)
    ensures ClaimsRespected(Review(db, n, to).0) && TargetsExist(Review(db, n, to).0)
  {
    forall other
      ensures ClaimRespected(Review(db, n, to).0, other)
    {
      assert ClaimRespected(db, other);
    }
  }

  lemma CounterRespectsClaims(db: Db, notice: int, user: int)
    requires ClaimsRespected(db) && TargetsExist(db)
    ensures ClaimsRespected(Counter(db, notice, user).0) && TargetsExist(Counter(db, notice, user).0)
  {
    forall n
      ensures ClaimRespected(Counter(db, notice, user).0, n)
    {
      assert ClaimRespected(db, n);
      assert ClaimRespected(db, notice);
    }
  }

  lemma StepRespectsClaims(db: Db, step: Step)
    requires ClaimsRespected(db) && TargetsExist(db) && ClaimStep(step)
    ensures ClaimsRespected(Next(db, step)) && TargetsExist(Next(db, step))
  {
    if step.DoReview? {
      ReviewRespectsClaims(db, step.notice, step.to);
    } else if step.DoCounter? {
      CounterRespectsClaims(db, step.notice, step.user);
    } else {
      forall n
        ensures ClaimRespected(Next(db, step), n)
      {
        assert ClaimRespected(db, n);
      }
    }
  }

  /** A submission with an actioned or countered notice is never approved. */
  lemma {:induction false} OpenClaimNeverApproved(db: Db, steps: seq<Step>)
    requires ClaimsRespected(db) && TargetsExist(db)
    requires forall i :: 0 <= i < |steps| ==> ClaimStep(steps[i])
    ensures ClaimsRespected(Run(db, steps)) && TargetsExist(Run(db, steps))
  {
    if steps != [] {
      OpenClaimNeverApproved(db, steps[..|steps| - 1]);
      StepRespectsClaims(Run(db, steps[..|steps| - 1]), steps[|steps| - 1]);
    }
  }

  /** The open claims on a submission. */
  ghost function OpenClaims(db: Db, submission: int): set<int> {
    set n | n in db.notices && OpenClaim(db.notices[n]) && db.notices[n].submission == Some(submission)
  }

  function RestoreEach(db: Db, order: seq<int>): Db
    decreases |order|
  {
    if order == [] then db else RestoreEach(Review(db, order[0], Restored).0, order[1..])
  }

  /**
   * Restoring the open claims of a submission one by one, in any order: until the last
   * one nothing about the submission changes, and then it is approved exactly when it
   * was removed and the last logged decision was a copyright removal.
   */
  lemma {:induction false} RestoreInAnyOrder(db: Db, submission: int, order: seq<int>, k: nat)
    requires ClaimsRespected(db) && TargetsExist(db) && submission in db.submissions
    requires order != [] && k <= |order|
    requires forall i, j :: 0 <= i < j < |order| ==> order[i] != order[j]
    requires OpenClaims(db, submission) == set i | 0 <= i < |order| :: order[i]
    ensures var end := RestoreEach(db, order[..k]);
            && submission in end.submissions
            && (k < |order| ==> end.submissions == db.submissions && end.log == db.log)
            && (k == |order| ==>
                  (end.submissions[submission].moderation == Approved <==>
                   db.submissions[submission].moderation == Removed && LastReason(db.log, submission, "copyright")))
    decreases |order|
  {
    if k > 0 {
      var first := order[0];
      assert first in OpenClaims(db, submission);
      var db' := Review(db, first, Restored).0;
      var rest := order[1..];
      assert order[..k][1..] == rest[..k - 1];
      assert RestoreEach(db, order[..k]) == RestoreEach(db', rest[..k - 1]);
      if |order| == 1 {
        assert rest[..k - 1] == [];
        OnlyClaim(db, submission, first);
      } else {
        assert order[1] in OpenClaims(db, submission);
        assert OtherOpenClaim(db.notices, submission, first);
        assert db' == SetStatus(db, first, Restored);
        RemainingClaims(db, db', submission, order);
        ReviewRespectsClaims(db, first, Restored);
        RestoreInAnyOrder(db', submission, rest, k - 1);
      }
    }
  }

  lemma OnlyClaim(db: Db, submission: int, notice: int)
    requires ClaimsRespected(db) && submission in db.submissions
    requires OpenClaims(db, submission) == {notice}
    ensures var db' := Review(db, notice, Restored).0;
            && submission in db'.submissions
            && (db'.submissions[submission].moderation == Approved <==>
                db.submissions[submission].moderation == Removed && LastReason(db.log, submission, "copyright"))
  {
    assert notice in OpenClaims(db, submission) && ClaimRespected(db, notice);
    OthersAreOpen(db, submission, notice);
  }

  lemma OthersAreOpen(db: Db, submission: int, notice: int)
    ensures OtherOpenClaim(db.notices, submission, notice) ==>
              exists n :: n != notice && n in OpenClaims(db, submission)
  {
    if OtherOpenClaim(db.notices, submission, notice) {
      var n :| n in db.notices && n != notice && db.notices[n].submission == Some(submission)
               && OpenClaim(db.notices[n]);
      assert n in OpenClaims(db, submission);
    }
  }

  lemma RemainingClaims(db: Db, db': Db, submission: int, order: seq<int>)
    requires order != [] && order[0] in db.notices && db' == SetStatus(db, order[0], Restored)
    requires forall i, j :: 0 <= i < j < |order| ==> order[i] != order[j]
    requires OpenClaims(db, submission) == set i | 0 <= i < |order| :: order[i]
    ensures OpenClaims(db', submission) == set i | 0 <= i < |order[1..]| :: order[1..][i]
  {
    var rest := set i | 0 <= i < |order[1..]| :: order[1..][i];
    forall n
      ensures n in OpenClaims(db', submission) <==> n in rest
    {
      if n in OpenClaims(db', submission) {
        assert n in OpenClaims(db, submission);
        var i :| 0 <= i < |order| && order[i] == n;
        assert order[1..][i - 1] == n;
      }
      if n in rest {
        var i :| 0 <= i < |order[1..]| && order[1..][i] == n;
        assert order[i + 1] == n && n != order[0];
        assert n in OpenClaims(db, submission);
      }
    }
  }

  /**
   * Actioning a lone claim and restoring it brings the submission's moderation back
   * exactly when it was approved before, or already removed for another reason.
   */
  lemma ActionThenRestore(db: Db, submission: int, notice: int)
    requires submission in db.submissions && notice in db.notices
    requires db.notices[notice] == Notice(Some(submission), Received) && OpenClaims(db, submission) == {}
    ensures var up := Review(Review(db, notice, Actioned).0, notice, Restored).0;
            var before := db.submissions[submission].moderation;
            && submission in up.submissions
            && up.submissions[submission].moderation ==
               (if before == Removed && !LastReason(db.log, submission, "copyright") then Removed else Approved)
            && (up.submissions[submission].moderation == before <==>
                before == Approved || (before == Removed && !LastReason(db.log, submission, "copyright")))
  {
    var down := Review(db, notice, Actioned).0;
    OthersAreOpen(down, submission, notice);
    forall n | n != notice
      ensures n !in OpenClaims(down, submission)
    {
      assert n !in OpenClaims(db, submission);
    }
    if db.submissions[submission].moderation != Removed {
      assert down.log[|down.log| - 1] == Decision(submission, Remove, "copyright");
      assert LastReason(down.log, submission, "copyright");
    }
  }

  /** So a clip that a moderator had rejected comes back approved once a later claim is resolved. */
  lemma RejectionForgotten(db: Db, submission: int, notice: int)
    requires submission in db.submissions && notice in db.notices
    requires db.notices[notice] == Notice(Some(submission), Received) && OpenClaims(db, submission) == {}
    ensures var steps :=
              [DoModerate(submission, Reject, "cheating"), DoReview(notice, Actioned), DoReview(notice, Restored)];
            && submission in Run(db, steps).submissions
            && Run(db, steps).submissions[submission].moderation == Approved
  {
    var rejected, down := RejectedReturns(db, submission, notice);
    RunVia(db, rejected, down,
           DoModerate(submission, Reject, "cheating"), DoReview(notice, Actioned), DoReview(notice, Restored));
  }

  lemma RejectedReturns(db: Db, submission: int, notice: int) returns (rejected: Db, down: Db)
    requires submission in db.submissions && notice in db.notices
    requires db.notices[notice] == Notice(Some(submission), Received) && OpenClaims(db, submission) == {}
    ensures rejected == Next(db, DoModerate(submission, Reject, "cheating"))
    ensures down == Next(rejected, DoReview(notice, Actioned))
    ensures var up := Next(down, DoReview(notice, Restored));
            submission in up.submissions && up.submissions[submission].moderation == Approved
  {
    StillUnclaimed(db, submission);
    rejected := Moderate(db, submission, Reject, "cheating").0;
    down := Review(rejected, notice, Actioned).0;
    ActionThenRestore(rejected, submission, notice);
  }

  lemma StillUnclaimed(db: Db, submission: int)
    requires submission in db.submissions && OpenClaims(db, submission) == {}
    ensures var rejected := Moderate(db, submission, Reject, "cheating").0;
            && OpenClaims(rejected, submission) == {} && rejected.notices == db.notices
            && submission in rejected.submissions && rejected.submissions[submission].moderation == Declined
  {
    forall n
      ensures n !in OpenClaims(Moderate(db, submission, Reject, "cheating").0, submission)
    {
      assert n !in OpenClaims(db, submission);
    }
  }

  lemma RunThree(db: Db, e1: Step, e2: Step, e3: Step)
    ensures Run(db, [e1, e2, e3]) == Next(Next(Next(db, e1), e2), e3)
  {
    assert [e1, e2, e3][..2] == [e1, e2] && [e1, e2][..1] == [e1] && [e1][..0] == [];
    assert Run(db, [e1]) == Next(Run(db, [e1][..0]), e1);
    assert Run(db, [e1, e2]) == Next(Run(db, [e1, e2][..1]), e2);
  }

  // ----- a notice settles -----

  function Rank(s: NoticeStatus): nat {
    match s
    case Received => 5
    case Reviewing => 4
    case Actioned => 3
    case Countered => 2
    case Restored => 1
    case _ => 0
  }

  function Transitions(db: Db, steps: seq<Step>, notice: int): nat
    requires notice in db.notices
  {
    if steps == [] then 0
    else
      var mid := Run(db, steps[..|steps| - 1]);
      Transitions(db, steps[..|steps| - 1], notice)
      + if notice in mid.notices && notice in Next(mid, steps[|steps| - 1]).notices
           && Next(mid, steps[|steps| - 1]).notices[notice].status != mid.notices[notice].status then 1 else 0
  }

  lemma {:induction false} StepLowersRank(db: Db, step: Step, notice: int)
    requires notice in db.notices
    ensures notice in Next(db, step).notices
    ensures var (a, b) := (db.notices[notice].status, Next(db, step).notices[notice].status);
            a == b || Rank(b) < Rank(a)
  {
    match step
    case DoReview(n, to) => ReviewLowersRank(db, n, to, notice);
    case DoCounter(n, user) =>
    case DoModerate(s, action, reason) => assert Next(db, step).notices == db.notices;
    case DoReviewAppeal(a, reversed) => assert Next(db, step).notices == db.notices;
    case _ =>
  }

  lemma ReviewLowersRank(db: Db, n: int, to: NoticeStatus, notice: int)
    requires notice in db.notices
    ensures notice in Review(db, n, to).0.notices
    ensures var (a, b) := (db.notices[notice].status, Review(db, n, to).0.notices[notice].status);
            a == b || Rank(b) < Rank(a)
  {
    var db' := Review(db, n, to).0;
    assert db'.notices == db.notices
           || (n in db.notices && ValidTransition(db.notices[n].status, to)
               && db'.notices == db.notices[n := db.notices[n].(status := to)]);
  }

  /** Over any run a notice makes at most five transitions. */
  lemma {:induction false} NoticeSettles(db: Db, steps: seq<Step>, notice: int)
    requires notice in db.notices
    ensures notice in Run(db, steps).notices
    ensures Transitions(db, steps, notice) + Rank(Run(db, steps).notices[notice].status)
            <= Rank(db.notices[notice].status)
    ensures Transitions(db, steps, notice) <= 5
  {
    if steps != [] {
      NoticeSettles(db, steps[..|steps| - 1], notice);
      StepLowersRank(Run(db, steps[..|steps| - 1]), steps[|steps| - 1], notice);
    }
  }
}
