/** A submission, its two statuses and the updates that automated analysis makes to them. */
module Submissions {
  import opened Prelude

  datatype Verification = Unverified | Passed | Failed | ManualReview

  datatype Moderation = Unmoderated | Approved | Declined | Removed

  datatype Submission = Submission(
    challenge: int, user: int, media: int,
    verification: Verification, moderation: Moderation, publishedAt: Option<int>)

  /** The row that `CreateSubmission` inserts; both statuses default to 'pending'. */
  function NewSubmission(challenge: int, user: int, media: int): Submission {
    Submission(challenge, user, media, Unverified, Unmoderated, None)
  }

  /** `COALESCE(published_at, now())`. */
  function Published(s: Submission, now: int): Option<int> {
    if s.publishedAt.Some? then s.publishedAt else Some(now)
  }

  /** A submission that a worker may still decide. */
  predicate Undecided(s: Submission) {
    s.verification == Unverified || s.verification == ManualReview
  }

  /** `CompleteAutomatedAnalysis` on an undecided row. */
  function Analyzed(s: Submission, v: Verification, m: Moderation, now: int): Submission {
    s.(verification := v, moderation := m,
       publishedAt := if v == Passed && m == Approved then Published(s, now) else None)
  }

  /** `UpdateVerification`. */
  function Verified(s: Submission, v: Verification, now: int): Submission {
    s.(verification := v,
       publishedAt := if v == Passed && s.moderation == Approved then Published(s, now) else None)
  }

  /** The update that `ClaimJob` makes when an analysis job has run out of attempts. */
  function Abandoned(s: Submission): Submission {
    s.(verification := ManualReview, moderation := Unmoderated)
  }
}
