/**
 * A persisted grading submission (the fields the command reads or writes)
 * and the reset applied to a claimed submission before it is requeued.
 */
module Submissions {
  import opened Wrappers

  /** Times are instants in microseconds since the Unix epoch; None is SQL NULL. */
  datatype Submission = Submission(
    id: nat,
    queueName: string,
    pushTime: int,
    pullTime: Option<int>,
    pullkey: string,
    returnTime: Option<int>,
    numFailures: nat,
    lmsCallbackUrl: string,
    lmsAck: bool,
    retired: bool)

  /** A submission is claimed while a worker holds it: its pull time is set. */
  predicate Claimed(s: Submission) {
    s.pullTime.Some?
  }

  /**
   * The per-record step of the requeue loop: a claimed submission gets one
   * more failure, loses its pull time and its pull key; an unclaimed one is
   * left as it is.  Identity, queue, times and flags are never touched.
   */
  function Reset(s: Submission): (r: Submission)
    ensures !Claimed(r)
    ensures r.id == s.id && r.queueName == s.queueName && r.pushTime == s.pushTime
    ensures r.returnTime == s.returnTime && r.lmsCallbackUrl == s.lmsCallbackUrl
    ensures r.lmsAck == s.lmsAck && r.retired == s.retired
    ensures Claimed(s) ==> r.numFailures == s.numFailures + 1 && r.pullkey == ""
    ensures !Claimed(s) ==> r == s
  {
    if Claimed(s) then s.(numFailures := s.numFailures + 1, pullTime := None, pullkey := "")
    else s
  }

  /** Resetting twice is resetting once: a reset record is unclaimed, so no second penalty. */
  lemma ResetIdempotent(s: Submission)
    ensures Reset(Reset(s)) == Reset(s)
  {
  }
}
