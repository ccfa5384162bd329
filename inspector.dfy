/**
 * Echo mode of `Command.handle`: a bounded preview of the matches with only
 * the `ECHO_PROPERTIES` fields, the true match count, and the comma-joined
 * ids of every match when there are more than `ECHO_LIMIT`.
 */
module Inspector {
  import opened Wrappers
  import opened Text
  import opened Submissions
  import opened Selection

  const EchoLimit: nat := 25

  /** The seven `ECHO_PROPERTIES`: id, queue_name, push_time, pull_time, return_time, num_failures, lms_callback_url. */
  datatype EchoRecord = EchoRecord(
    id: nat,
    queueName: string,
    pushTime: int,
    pullTime: Option<int>,
    returnTime: Option<int>,
    numFailures: nat,
    lmsCallbackUrl: string)

  /** What echo mode writes: the previews, the count, and the id list when one is written. */
  datatype EchoReport = EchoReport(preview: seq<EchoRecord>, count: nat, ids: Option<string>)

  /** `values(*ECHO_PROPERTIES)` of one row. */
  function Project(s: Submission): EchoRecord {
    EchoRecord(s.id, s.queueName, s.pushTime, s.pullTime, s.returnTime, s.numFailures, s.lmsCallbackUrl)
  }

  /** `map(str, ids)` over the ordered matches. */
  function IdTexts(rows: seq<Submission>, matches: seq<nat>): (r: seq<string>)
    requires InRange(matches, |rows|)
    ensures |r| == |matches|
    ensures forall k :: 0 <= k < |r| ==> ParseInt(r[k]) == Some(rows[matches[k]].id as int)
    ensures forall k :: 0 <= k < |r| ==> ',' !in r[k]
  {
    seq(|matches|, k requires 0 <= k < |matches| =>
      NatToDecimalHasNoComma(rows[matches[k]].id);
      NatToDecimal(rows[matches[k]].id))
  }

  /** The echo output for an ordered match list; it reads the rows and changes nothing. */
  function Echo(rows: seq<Submission>, matches: seq<nat>): (r: EchoReport)
    requires InRange(matches, |rows|)
    ensures r.count == |matches|
    ensures |r.preview| == if |matches| <= EchoLimit then |matches| else EchoLimit
    ensures forall k :: 0 <= k < |r.preview| ==> r.preview[k] == Project(rows[matches[k]])
    ensures r.ids.Some? <==> |matches| > EchoLimit
  {
    var shown := if |matches| <= EchoLimit then |matches| else EchoLimit;
    var preview := seq(shown, k requires 0 <= k < shown => Project(rows[matches[k]]));
    var ids := if |matches| > EchoLimit then Some(Join(IdTexts(rows, matches), ',')) else None;
    EchoReport(preview, |matches|, ids)
  }

  /**
   * The id list written for a large match set names every match, in order:
   * splitting it at the commas and reading each piece as an integer gives
   * back the ids of the matched rows.
   */
  lemma EchoIdsListEveryMatch(rows: seq<Submission>, matches: seq<nat>)
    requires InRange(matches, |rows|)
    requires |matches| > EchoLimit
    ensures var pieces := Split(Echo(rows, matches).ids.value, ',');
      && |pieces| == |matches|
      && forall k :: 0 <= k < |matches| ==> ParseInt(pieces[k]) == Some(rows[matches[k]].id as int)
  {
    SplitJoin(IdTexts(rows, matches), ',');
  }
}
