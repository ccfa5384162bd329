/**
 * `Command.handle`: read the options, build the query, select the ordered
 * matches, then either echo them or requeue them.
 */
module Command {
  import opened Wrappers
  import opened Submissions
  import opened Eligibility
  import opened Selection
  import opened Inspector
  import opened Requeue

  datatype Outcome =
    | Aborted(error: CommandError)
    | Echoed(echo: EchoReport)
    | Requeued(report: RequeueReport)

  /** The ordered matches of the options' query, or the error that stops `handle` first. */
  function Matching(opts: Options, rows: seq<Submission>, now: int, timeoutSeconds: int,
                    maxFailures: int): (r: Result<seq<nat>, CommandError>)
    ensures r.Failure? <==> ParseOptions(opts).Failure?
    ensures r.Failure? ==> r.error == ParseOptions(opts).error
    ensures r.Success? ==>
      IsSelection(rows, BuildQuery(ParseOptions(opts).value, now, timeoutSeconds, maxFailures), r.value)
  {
    var criteria :- ParseOptions(opts);
    Success(Select(rows, BuildQuery(criteria, now, timeoutSeconds, maxFailures)))
  }

  /**
   * One run of the command over the submission table.  The clock reading and
   * the two settings (`PULLED_SUBMISSION_TIMEOUT` in seconds,
   * `MAX_NUMBER_OF_FAILURES`) are parameters.  A malformed option aborts
   * before anything is read or written; echo mode writes nothing.
   */
  method Handle(opts: Options, rows: array<Submission>, producer: Producer,
                now: int, timeoutSeconds: int, maxFailures: int) returns (outcome: Outcome)
    modifies rows, producer
    ensures match Matching(opts, old(rows[..]), now, timeoutSeconds, maxFailures)
      case Failure(e) =>
        outcome == Aborted(e) && rows[..] == old(rows[..]) && producer.sent == old(producer.sent)
      case Success(m) =>
        if opts.echo then
          outcome == Echoed(Echo(old(rows[..]), m)) &&
          rows[..] == old(rows[..]) && producer.sent == old(producer.sent)
        else
          outcome == Requeued(if |m| == 0 then NoMatchingSubmissions else Queued(|m|)) &&
          rows[..] == RequeuedRows(old(rows[..]), m) &&
          producer.sent == old(producer.sent) + Dispatches(old(rows[..]), m)
  {
    var matching := Matching(opts, rows[..], now, timeoutSeconds, maxFailures);
    if matching.Failure? {
      return Aborted(matching.error);
    }
    var matches := matching.value;
    if opts.echo {
      outcome := Echoed(Echo(rows[..], matches));
    } else {
      var report := RequeueSubmissions(rows, matches, producer);
      outcome := Requeued(report);
    }
  }

  /**
   * The requeue dispatches follow the selection: one per matched submission,
   * to its queue with its id, latest push time first.
   */
  lemma DispatchesFollowSelection(rows: seq<Submission>, q: Query, m: seq<nat>)
    requires IsSelection(rows, q, m)
    ensures var d := Dispatches(rows, m);
      && |d| == |m|
      && (forall k :: 0 <= k < |d| ==> d[k] == DispatchFor(rows[m[k]]) && Matches(q, rows[m[k]]))
      && (forall j, k :: 0 <= j < k < |d| ==> rows[m[j]].pushTime >= rows[m[k]].pushTime)
      && (forall i :: 0 <= i < |rows| && Matches(q, rows[i]) ==>
            exists k :: 0 <= k < |d| && m[k] == i && d[k] == DispatchFor(rows[i]))
  {
    forall i | 0 <= i < |rows| && Matches(q, rows[i])
      ensures exists k :: 0 <= k < |m| && m[k] == i
    {
      assert i in m;
    }
  }
}

/** Worked examples of the command on small tables. */
module Scenarios {
  import opened Wrappers
  import opened Text
  import opened Timestamps
  import opened Submissions
  import opened Eligibility
  import opened Selection
  import opened Requeue
  import opened Command

  const Hour: int := 3600 * MicrosPerSecond

  /** Submission 7 on queue "q1", pushed three hours and pulled two hours before `now`. */
  function S1(now: int): Submission {
    Submission(7, "q1", now - 3 * Hour, Some(now - 2 * Hour), "key", None, 0,
               "http://lms/callback", false, false)
  }

  /** `--queues=q1` and nothing else, read into criteria. */
  lemma QueuesOptionOnly()
    ensures ParseOptions(Options("q1", "", "", "", false, false)) ==
            Success(Criteria(Some(["q1"]), None, None, None, false))
  {
    SplitJoin(["q1"], ',');
  }

  /** The ordered matches of a one-row table whose row matches. */
  lemma SingleMatch(rows: seq<Submission>, q: Query)
    requires |rows| == 1 && Matches(q, rows[0])
    ensures Select(rows, q) == [0]
  {
    var m := Select(rows, q);
    assert 0 in m;
    DistinctCardinality(m);
    assert Elements(m) == {0};
  }

  /**
   * A submission pulled two hours ago on queue "q1", with a one-hour pull
   * timeout: `--queues=q1` selects it, and requeueing it clears its claim,
   * counts one failure and dispatches ("q1", "7").
   */
  lemma StaleClaimOnNamedQueue(now: int)
    ensures Matching(Options("q1", "", "", "", false, false), [S1(now)], now, 3600, 5) == Success([0])
    ensures RequeuedRows([S1(now)], [0]) == [S1(now).(pullTime := None, pullkey := "", numFailures := 1)]
    ensures Dispatches([S1(now)], [0]) == [Dispatch("q1", "7")]
  {
    var c := Criteria(Some(["q1"]), None, None, None, false);
    QueuesOptionOnly();
    QueryMatchesEligible(S1(now), c, now, 3600, 5);
    SingleMatch([S1(now)], BuildQuery(c, now, 3600, 5));
    assert NatToDecimal(7) == "7";
  }
}
