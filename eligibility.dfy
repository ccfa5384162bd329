/**
 * The eligibility filter of `Command.handle`: the operator's options are
 * read into criteria, the criteria become a Django-style query (a list of
 * `filter` lookups and a list of `exclude` lookups), and a submission matches
 * the query as the database would evaluate it.  `Eligible` states the same
 * condition directly, field by field; `QueryMatchesEligible` proves the two agree.
 */
module Eligibility {
  import opened Wrappers
  import opened Text
  import opened Timestamps
  import opened Submissions

  /** The command's options; an empty string is an option not given. */
  datatype Options = Options(
    queueNames: string,
    submissionIds: string,
    pullTimeStart: string,
    pullTimeEnd: string,
    ignoreFailures: bool,
    echo: bool)

  /** The options after parsing: comma-split lists and instants. */
  datatype Criteria = Criteria(
    queueNames: Option<seq<string>>,
    ids: Option<seq<int>>,
    pullTimeStart: Option<int>,
    pullTimeEnd: Option<int>,
    ignoreFailures: bool)

  datatype CommandError =
    | MalformedTimestamp(text: string)  // strptime raised ValueError
    | MalformedId(token: string)        // int() of an `--ids` token raised ValueError

  function ParseTime(text: string): (r: Result<int, CommandError>)
    ensures r.Failure? <==> ParseIso8601(text).None?
    ensures r.Failure? ==> r.error == MalformedTimestamp(text)
  {
    match ParseIso8601(text)
    case None => Failure(MalformedTimestamp(text))
    case Some(dt) => Success(ToInstant(dt))
  }

  /**
   * The integer conversion Django applies to each `id__in` value; the first
   * token `int()` refuses aborts the command.
   */
  function ParseIds(tokens: seq<string>): (r: Result<seq<int>, CommandError>)
    ensures r.Success? <==> forall k :: 0 <= k < |tokens| ==> ParseInt(tokens[k]).Some?
    ensures r.Success? ==> |r.value| == |tokens|
    ensures r.Success? ==> forall k :: 0 <= k < |tokens| ==> ParseInt(tokens[k]) == Some(r.value[k])
    ensures r.Failure? ==>
      exists k :: 0 <= k < |tokens| && ParseInt(tokens[k]).None? && r.error == MalformedId(tokens[k])
  {
    if |tokens| == 0 then Success([])
    else match ParseInt(tokens[0])
      case None => Failure(MalformedId(tokens[0]))
      case Some(n) =>
        var rest :- ParseIds(tokens[1..]);
        Success([n] + rest)
  }

  /** A time option given and malformed. */
  predicate BadTime(text: string) {
    text != "" && ParseIso8601(text).None?
  }

  /** An `--ids` option given with a token `int()` refuses. */
  predicate BadIds(text: string) {
    text != "" && ParseIds(Split(text, ',')).Failure?
  }

  /**
   * Reading the options in the order `handle` does: the start-time parse,
   * the end-time parse, then the `int()` conversion of the `id__in` values
   * that Django performs when the filter is built.  Each option is used only
   * when non-empty; the first malformed one aborts the command.
   */
  function ParseOptions(opts: Options): (r: Result<Criteria, CommandError>)
    ensures r.Success? <==>
      !BadTime(opts.pullTimeStart) && !BadTime(opts.pullTimeEnd) && !BadIds(opts.submissionIds)
    ensures BadTime(opts.pullTimeStart) ==>
      r == Failure(MalformedTimestamp(opts.pullTimeStart))
    ensures !BadTime(opts.pullTimeStart) && BadTime(opts.pullTimeEnd) ==>
      r == Failure(MalformedTimestamp(opts.pullTimeEnd))
    ensures !BadTime(opts.pullTimeStart) && !BadTime(opts.pullTimeEnd) && BadIds(opts.submissionIds) ==>
      r == Failure(ParseIds(Split(opts.submissionIds, ',')).error)
    ensures r.Success? ==>
      && (r.value.queueNames.Some? <==> opts.queueNames != "")
      && (r.value.queueNames.Some? ==> r.value.queueNames.value == Split(opts.queueNames, ','))
      && (r.value.ids.Some? <==> opts.submissionIds != "")
      && (r.value.ids.Some? ==> ParseIds(Split(opts.submissionIds, ',')) == Success(r.value.ids.value))
      && (r.value.pullTimeStart.Some? <==> opts.pullTimeStart != "")
      && (r.value.pullTimeStart.Some? ==> ParseTime(opts.pullTimeStart) == Success(r.value.pullTimeStart.value))
      && (r.value.pullTimeEnd.Some? <==> opts.pullTimeEnd != "")
      && (r.value.pullTimeEnd.Some? ==> ParseTime(opts.pullTimeEnd) == Success(r.value.pullTimeEnd.value))
      && r.value.ignoreFailures == opts.ignoreFailures
  {
    var queueNames := if opts.queueNames != "" then Some(Split(opts.queueNames, ',')) else None;
    var start :- if opts.pullTimeStart == "" then Success(None)
                 else var t :- ParseTime(opts.pullTimeStart); Success(Some(t));
    var end :- if opts.pullTimeEnd == "" then Success(None)
               else var t :- ParseTime(opts.pullTimeEnd); Success(Some(t));
    var ids :- if opts.submissionIds == "" then Success(None)
               else var v :- ParseIds(Split(opts.submissionIds, ',')); Success(Some(v));
    Success(Criteria(queueNames, ids, start, end, opts.ignoreFailures))
  }

  /** One Django field lookup, or an OR of two (`Q(...) | Q(...)`). */
  datatype Lookup =
    | QueueNameIn(names: seq<string>)     // queue_name__in
    | IdIn(ids: seq<int>)                 // id__in
    | PullTimeGte(bound: int)             // pull_time__gte
    | PullTimeLte(bound: int)             // pull_time__lte
    | PullTimeIsNull                      // pull_time=None
    | NumFailuresLt(bound: int)           // num_failures__lt
    | LmsAckSet                           // lms_ack=1
    | RetiredSet                          // retired=1
    | Either(left: Lookup, right: Lookup) // Q(left) | Q(right)

  /** `filter(*filters).exclude(**excludes)`. */
  datatype Query = Query(filters: seq<Lookup>, excludes: seq<Lookup>)

  /**
   * A lookup on one row.  A comparison with a NULL pull time is not true, as
   * in SQL; the lookups used in `excludes` never compare a NULL, so two-valued
   * logic is exact here.
   */
  predicate Holds(l: Lookup, s: Submission) {
    match l
    case QueueNameIn(names) => s.queueName in names
    case IdIn(ids) => s.id in ids
    case PullTimeGte(b) => s.pullTime.Some? && s.pullTime.value >= b
    case PullTimeLte(b) => s.pullTime.Some? && s.pullTime.value <= b
    case PullTimeIsNull => s.pullTime.None?
    case NumFailuresLt(b) => s.numFailures < b
    case LmsAckSet => s.lmsAck
    case RetiredSet => s.retired
    case Either(left, right) => Holds(left, s) || Holds(right, s)
  }

  predicate AllHold(ls: seq<Lookup>, s: Submission) {
    forall k :: 0 <= k < |ls| ==> Holds(ls[k], s)
  }

  /** `exclude(a=.., b=..)` drops the rows where ALL its lookups hold: NOT(a AND b). */
  predicate Matches(q: Query, s: Submission) {
    AllHold(q.filters, s) && !AllHold(q.excludes, s)
  }

  /** `timezone.now() - timedelta(seconds=PULLED_SUBMISSION_TIMEOUT)`. */
  function StaleCutoff(now: int, timeoutSeconds: int): int {
    now - timeoutSeconds * MicrosPerSecond
  }

  /**
   * The query `handle` assembles from the criteria, the clock and the two
   * settings.  The staleness clause is added only when no end time is given.
   */
  function BuildQuery(c: Criteria, now: int, timeoutSeconds: int, maxFailures: int): (q: Query)
    ensures |q.excludes| == (if c.pullTimeEnd.Some? then 3 else 2)
  {
    var excludes := [LmsAckSet, RetiredSet] + (if c.pullTimeEnd.Some? then [PullTimeIsNull] else []);
    var filters :=
      (if c.queueNames.Some? then [QueueNameIn(c.queueNames.value)] else [])
      + (if c.ids.Some? then [IdIn(c.ids.value)] else [])
      + (if c.pullTimeStart.Some? then [PullTimeGte(c.pullTimeStart.value)] else [])
      + (if c.pullTimeEnd.Some? then [PullTimeLte(c.pullTimeEnd.value)]
         else [Either(PullTimeLte(StaleCutoff(now, timeoutSeconds)), PullTimeIsNull)])
      + (if !c.ignoreFailures then [NumFailuresLt(maxFailures)] else []);
    Query(filters, excludes)
  }

  /** The selection condition, stated field by field. */
  predicate Eligible(s: Submission, c: Criteria, now: int, timeoutSeconds: int, maxFailures: int) {
    && (c.queueNames.Some? ==> s.queueName in c.queueNames.value)
    && (c.ids.Some? ==> s.id in c.ids.value)
    && (c.pullTimeStart.Some? ==> s.pullTime.Some? && s.pullTime.value >= c.pullTimeStart.value)
    && (c.pullTimeEnd.Some? ==> s.pullTime.Some? && s.pullTime.value <= c.pullTimeEnd.value)
    && (c.pullTimeEnd.None? ==>
          s.pullTime.None? || s.pullTime.value <= StaleCutoff(now, timeoutSeconds))
    && (!c.ignoreFailures ==> s.numFailures < maxFailures)
    && !(s.lmsAck && s.retired && (c.pullTimeEnd.Some? ==> s.pullTime.None?))
  }

  /**
   * Both flags are always excluded; the NULL pull-time exclusion comes with an
   * end time, the staleness clause without one, and the failure ceiling unless
   * `--ignore-failures` is given.
   */
  lemma BuildQueryClauses(c: Criteria, now: int, timeoutSeconds: int, maxFailures: int)
    ensures var q := BuildQuery(c, now, timeoutSeconds, maxFailures);
      && LmsAckSet in q.excludes && RetiredSet in q.excludes
      && (PullTimeIsNull in q.excludes <==> c.pullTimeEnd.Some?)
      && (Either(PullTimeLte(StaleCutoff(now, timeoutSeconds)), PullTimeIsNull) in q.filters <==> c.pullTimeEnd.None?)
      && (NumFailuresLt(maxFailures) in q.filters <==> !c.ignoreFailures)
  {
  }

  lemma AllHoldAppend(a: seq<Lookup>, b: seq<Lookup>, s: Submission)
    ensures AllHold(a + b, s) <==> AllHold(a, s) && AllHold(b, s)
  {
    if AllHold(a, s) && AllHold(b, s) {
      forall k | 0 <= k < |a + b| ensures Holds((a + b)[k], s) {
        if k >= |a| { assert (a + b)[k] == b[k - |a|]; }
      }
    }
    if AllHold(a + b, s) {
      forall k | 0 <= k < |a| ensures Holds(a[k], s) {
        assert (a + b)[k] == a[k];
      }
      forall k | 0 <= k < |b| ensures Holds(b[k], s) {
        assert (a + b)[|a| + k] == b[k];
      }
    }
  }

  lemma AllHoldSingle(ls: seq<Lookup>, s: Submission)
    requires |ls| <= 1
    ensures AllHold(ls, s) <==> (|ls| == 1 ==> Holds(ls[0], s))
  {
  }

  /** The `filter` part of the built query, clause by clause. */
  lemma FiltersMeaning(s: Submission, c: Criteria, now: int, timeoutSeconds: int, maxFailures: int)
    ensures AllHold(BuildQuery(c, now, timeoutSeconds, maxFailures).filters, s) <==>
      && (c.queueNames.Some? ==> s.queueName in c.queueNames.value)
      && (c.ids.Some? ==> s.id in c.ids.value)
      && (c.pullTimeStart.Some? ==> s.pullTime.Some? && s.pullTime.value >= c.pullTimeStart.value)
      && (c.pullTimeEnd.Some? ==> s.pullTime.Some? && s.pullTime.value <= c.pullTimeEnd.value)
      && (c.pullTimeEnd.None? ==>
            s.pullTime.None? || s.pullTime.value <= StaleCutoff(now, timeoutSeconds))
      && (!c.ignoreFailures ==> s.numFailures < maxFailures)
  {
    var queue := if c.queueNames.Some? then [QueueNameIn(c.queueNames.value)] else [];
    var ids := if c.ids.Some? then [IdIn(c.ids.value)] else [];
    var start := if c.pullTimeStart.Some? then [PullTimeGte(c.pullTimeStart.value)] else [];
    var window := if c.pullTimeEnd.Some? then [PullTimeLte(c.pullTimeEnd.value)]
                  else [Either(PullTimeLte(StaleCutoff(now, timeoutSeconds)), PullTimeIsNull)];
    var failures := if !c.ignoreFailures then [NumFailuresLt(maxFailures)] else [];
    assert BuildQuery(c, now, timeoutSeconds, maxFailures).filters ==
           queue + ids + start + window + failures;
    AllHoldAppend(queue, ids, s);
    AllHoldAppend(queue + ids, start, s);
    AllHoldAppend(queue + ids + start, window, s);
    AllHoldAppend(queue + ids + start + window, failures, s);
    AllHoldSingle(queue, s);
    AllHoldSingle(ids, s);
    AllHoldSingle(start, s);
    AllHoldSingle(window, s);
    AllHoldSingle(failures, s);
    assert AllHold(queue, s) <==> (c.queueNames.Some? ==> s.queueName in c.queueNames.value);
    assert AllHold(ids, s) <==> (c.ids.Some? ==> s.id in c.ids.value);
    assert AllHold(start, s) <==>
      (c.pullTimeStart.Some? ==> s.pullTime.Some? && s.pullTime.value >= c.pullTimeStart.value);
    assert AllHold(window, s) <==>
      && (c.pullTimeEnd.Some? ==> s.pullTime.Some? && s.pullTime.value <= c.pullTimeEnd.value)
      && (c.pullTimeEnd.None? ==>
            s.pullTime.None? || s.pullTime.value <= StaleCutoff(now, timeoutSeconds));
    assert AllHold(failures, s) <==> (!c.ignoreFailures ==> s.numFailures < maxFailures);
  }

  /** The `exclude` part of the built query: NOT(lms_ack AND retired [AND pull_time IS NULL]). */
  lemma ExcludesMeaning(s: Submission, c: Criteria, now: int, timeoutSeconds: int, maxFailures: int)
    ensures AllHold(BuildQuery(c, now, timeoutSeconds, maxFailures).excludes, s) <==>
      s.lmsAck && s.retired && (c.pullTimeEnd.Some? ==> s.pullTime.None?)
  {
    var both := [LmsAckSet, RetiredSet];
    var excl := if c.pullTimeEnd.Some? then [PullTimeIsNull] else [];
    assert BuildQuery(c, now, timeoutSeconds, maxFailures).excludes == both + excl;
    AllHoldAppend(both, excl, s);
    AllHoldSingle(excl, s);
    assert AllHold(both, s) <==> s.lmsAck && s.retired by {
      assert both[0] == LmsAckSet && both[1] == RetiredSet;
    }
  }

  /** The database's evaluation of the built query is exactly `Eligible`. */
  lemma QueryMatchesEligible(s: Submission, c: Criteria, now: int, timeoutSeconds: int, maxFailures: int)
    ensures Matches(BuildQuery(c, now, timeoutSeconds, maxFailures), s) <==>
            Eligible(s, c, now, timeoutSeconds, maxFailures)
  {
    FiltersMeaning(s, c, now, timeoutSeconds, maxFailures);
    ExcludesMeaning(s, c, now, timeoutSeconds, maxFailures);
  }

  /**
   * Only the conjunction of the two flags is excluded: without an end time,
   * a submission with both `lms_ack` and `retired` set never matches, while
   * one with a single flag set matches whenever the other criteria allow it.
   */
  lemma FlagExclusionIsConjunction(s: Submission, c: Criteria, now: int, timeoutSeconds: int, maxFailures: int)
    requires c.pullTimeEnd.None?
    ensures s.lmsAck && s.retired ==> !Matches(BuildQuery(c, now, timeoutSeconds, maxFailures), s)
    ensures var flagsCleared := s.(lmsAck := false, retired := false);
            !(s.lmsAck && s.retired) ==>
              (Matches(BuildQuery(c, now, timeoutSeconds, maxFailures), s) <==>
               Matches(BuildQuery(c, now, timeoutSeconds, maxFailures), flagsCleared))
  {
    QueryMatchesEligible(s, c, now, timeoutSeconds, maxFailures);
    QueryMatchesEligible(s.(lmsAck := false, retired := false), c, now, timeoutSeconds, maxFailures);
  }

  /**
   * With an end time, the only exclusion left is rows with both flags and a
   * NULL pull time, which the window already drops: a submission inside the
   * window matches whatever its flags say.
   */
  lemma WindowIgnoresFlags(s: Submission, c: Criteria, now: int, timeoutSeconds: int, maxFailures: int)
    requires c.pullTimeEnd.Some?
    ensures var flagsCleared := s.(lmsAck := false, retired := false);
            Matches(BuildQuery(c, now, timeoutSeconds, maxFailures), s) <==>
            Matches(BuildQuery(c, now, timeoutSeconds, maxFailures), flagsCleared)
  {
    QueryMatchesEligible(s, c, now, timeoutSeconds, maxFailures);
    QueryMatchesEligible(s.(lmsAck := false, retired := false), c, now, timeoutSeconds, maxFailures);
  }

  /**
   * A start time alone does not switch off the staleness clause: both apply.
   */
  lemma StartTimeKeepsStaleness(s: Submission, c: Criteria, now: int, timeoutSeconds: int, maxFailures: int)
    requires c.pullTimeStart.Some? && c.pullTimeEnd.None?
    requires Matches(BuildQuery(c, now, timeoutSeconds, maxFailures), s)
    ensures s.pullTime.Some?
    ensures c.pullTimeStart.value <= s.pullTime.value <= StaleCutoff(now, timeoutSeconds)
  {
    QueryMatchesEligible(s, c, now, timeoutSeconds, maxFailures);
  }
}
