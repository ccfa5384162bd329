/**
 * `Command.requeue_submissions`: walk the ordered matches; reset each claimed
 * one, save it, and push `(queue_name, str(id))` for every match.
 */
module Requeue {
  import opened Wrappers
  import opened Text
  import opened Submissions
  import opened Selection

  /** One `push_to_queue(queue_name, submission_id)` call. */
  datatype Dispatch = Dispatch(queueName: string, submissionId: string)

  /** The queue producer, seen only through the calls made to it. */
  class Producer {
    ghost var sent: seq<Dispatch>

    constructor ()
      ensures sent == []
    {
      sent := [];
    }

    method PushToQueue(queueName: string, submissionId: string)
      modifies this
      ensures sent == old(sent) + [Dispatch(queueName, submissionId)]
    {
      sent := sent + [Dispatch(queueName, submissionId)];
    }
  }

  /** What the command reports: nothing to queue, or how many it queued. */
  datatype RequeueReport = NoMatchingSubmissions | Queued(count: nat)

  /** The dispatch made for a row. */
  function DispatchFor(s: Submission): (d: Dispatch)
    ensures d.queueName == s.queueName
    ensures ParseInt(d.submissionId) == Some(s.id as int)
    ensures ',' !in d.submissionId
  {
    NatToDecimalRoundTrip(s.id);
    NatToDecimalHasNoComma(s.id);
    Dispatch(s.queueName, NatToDecimal(s.id))
  }

  /** The dispatches of a requeue run over `matches`, in order. */
  function Dispatches(rows: seq<Submission>, matches: seq<nat>): (r: seq<Dispatch>)
    requires InRange(matches, |rows|)
    ensures |r| == |matches|
    ensures forall k :: 0 <= k < |r| ==> r[k] == DispatchFor(rows[matches[k]])
  {
    seq(|matches|, k requires 0 <= k < |matches| => DispatchFor(rows[matches[k]]))
  }

  /** The table after a requeue run: matched rows reset, all others as they were. */
  function RequeuedRows(rows: seq<Submission>, matches: seq<nat>): (r: seq<Submission>)
    ensures |r| == |rows|
    ensures forall i :: 0 <= i < |rows| && i in matches ==> r[i] == Reset(rows[i])
    ensures forall i :: 0 <= i < |rows| && i !in matches ==> r[i] == rows[i]
  {
    seq(|rows|, i requires 0 <= i < |rows| => if i in matches then Reset(rows[i]) else rows[i])
  }

  /**
   * The requeue loop.  `matches` is the ordered match list: distinct
   * positions of the table.  Each claimed match is reset and saved before its
   * dispatch; every match is dispatched once, in order; no other row changes.
   */
  method RequeueSubmissions(rows: array<Submission>, matches: seq<nat>, producer: Producer)
    returns (report: RequeueReport)
    requires InRange(matches, rows.Length) && Distinct(matches)
    modifies rows, producer
    ensures report == if |matches| == 0 then NoMatchingSubmissions else Queued(|matches|)
    ensures rows[..] == RequeuedRows(old(rows[..]), matches)
    ensures producer.sent == old(producer.sent) + Dispatches(old(rows[..]), matches)
  {
    ghost var before := rows[..];
    ghost var sentBefore := producer.sent;
    if |matches| == 0 {
      assert rows[..] == RequeuedRows(before, matches);
      return NoMatchingSubmissions;
    }
    var k := 0;
    while k < |matches|
      invariant 0 <= k <= |matches|
      invariant rows.Length == |before|
      invariant rows[..] == RequeuedRows(before, matches[..k])
      invariant producer.sent == sentBefore + Dispatches(before, matches[..k])
    {
      var i := matches[k];
      RequeueStepRows(before, matches, k);
      RequeueStepDispatch(before, matches, k);
      assert rows[i] == before[i];
      ghost var rowsDone, sentDone := rows[..], producer.sent;
      RequeueOne(rows, i, producer);
      assert rows[..] == rowsDone[i := Reset(before[i])];
      assert producer.sent == sentDone + [DispatchFor(before[i])];
      assert producer.sent == sentBefore + (Dispatches(before, matches[..k]) + [DispatchFor(before[i])]);
      k := k + 1;
    }
    assert matches[..k] == matches;
    report := Queued(|matches|);
  }

  /**
   * The loop body for one match at position `i`: reset and save it if it is
   * claimed, then push it to its queue.
   */
  method RequeueOne(rows: array<Submission>, i: nat, producer: Producer)
    requires i < rows.Length
    modifies rows, producer
    ensures rows[..] == old(rows[..])[i := Reset(old(rows[i]))]
    ensures producer.sent == old(producer.sent) + [DispatchFor(old(rows[i]))]
  {
    var submission := rows[i];
    if submission.pullTime.Some? {
      submission := submission.(numFailures := submission.numFailures + 1, pullTime := None, pullkey := "");
      rows[i] := submission;  // save()
    }
    producer.PushToQueue(submission.queueName, NatToDecimal(submission.id));
  }

  /** One iteration of the loop on the table: the next match is still untouched, then it is reset. */
  lemma RequeueStepRows(rows: seq<Submission>, matches: seq<nat>, k: nat)
    requires InRange(matches, |rows|) && Distinct(matches) && k < |matches|
    ensures RequeuedRows(rows, matches[..k])[matches[k]] == rows[matches[k]]
    ensures RequeuedRows(rows, matches[..k + 1]) ==
            RequeuedRows(rows, matches[..k])[matches[k] := Reset(rows[matches[k]])]
  {
    var i := matches[k];
    var done, next := matches[..k], matches[..k + 1];
    assert i !in done by {
      forall j | 0 <= j < k ensures done[j] != i { assert done[j] == matches[j]; }
    }
    forall x ensures x in next <==> x in done || x == i {
      assert next == done + [i];
    }
    var lhs := RequeuedRows(rows, next);
    var rhs := RequeuedRows(rows, done)[i := Reset(rows[i])];
    forall x | 0 <= x < |rows| ensures lhs[x] == rhs[x] {
    }
  }

  /** One iteration of the loop on the producer: one more dispatch at the end. */
  lemma RequeueStepDispatch(rows: seq<Submission>, matches: seq<nat>, k: nat)
    requires InRange(matches, |rows|) && k < |matches|
    ensures Dispatches(rows, matches[..k + 1]) ==
            Dispatches(rows, matches[..k]) + [DispatchFor(rows[matches[k]])]
  {
    var lhs := Dispatches(rows, matches[..k + 1]);
    var rhs := Dispatches(rows, matches[..k]) + [DispatchFor(rows[matches[k]])];
    assert |lhs| == |rhs|;
    forall j | 0 <= j < |lhs| ensures lhs[j] == rhs[j] {
      if j < k { assert matches[..k + 1][j] == matches[..k][j]; }
    }
  }

  /**
   * Every match is dispatched exactly once: when the table's ids are unique,
   * the dispatched id strings are pairwise different, and each names the
   * queue and the id of the row it was made for.
   */
  lemma DispatchedOncePerMatch(rows: seq<Submission>, matches: seq<nat>)
    requires InRange(matches, |rows|) && Distinct(matches)
    requires forall i, j :: 0 <= i < j < |rows| ==> rows[i].id != rows[j].id
    ensures var d := Dispatches(rows, matches);
      forall j, k :: 0 <= j < k < |d| ==> d[j].submissionId != d[k].submissionId
    ensures var d := Dispatches(rows, matches);
      forall k :: 0 <= k < |d| ==>
        d[k].queueName == rows[matches[k]].queueName &&
        ParseInt(d[k].submissionId) == Some(rows[matches[k]].id as int)
  {
  }

  /**
   * After a run, no matched submission is claimed, no failure count went
   * down, and each count went up by one exactly when the row had been claimed.
   */
  lemma RequeueResetsClaims(rows: seq<Submission>, matches: seq<nat>)
    ensures var after := RequeuedRows(rows, matches);
      forall i :: 0 <= i < |rows| ==>
        && after[i].numFailures == rows[i].numFailures + (if i in matches && Claimed(rows[i]) then 1 else 0)
        && (i in matches ==> !Claimed(after[i]))
        && after[i].id == rows[i].id && after[i].queueName == rows[i].queueName
  {
  }

  /** Running the requeue again over the same positions changes no row a second time. */
  lemma RequeueRowsIdempotent(rows: seq<Submission>, matches: seq<nat>)
    ensures RequeuedRows(RequeuedRows(rows, matches), matches) == RequeuedRows(rows, matches)
  {
    var once := RequeuedRows(rows, matches);
    forall i | 0 <= i < |rows| ensures RequeuedRows(once, matches)[i] == once[i] {
      if i in matches { ResetIdempotent(rows[i]); }
    }
  }
}
