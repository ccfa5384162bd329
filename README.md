# queue_ungraded_submissions, modelled in Dafny

This project models the `queue_ungraded_submissions` management command of
the xqueue grading queue. The command finds submissions whose grading never
finished and offers them again to their work queues. The model has three parts.

- **Eligibility filter.** The command's options become criteria. The criteria
  become a Django-style query: `filter` lookups plus one `exclude`. The model
  evaluates that query per row with SQL NULL semantics. It is proved equal to a
  field-by-field predicate, `Eligible`.
- **Selection.** The matching rows are ordered by descending `push_time`. The
  order of equal push times is left open (`IsSelection`), and `Select` is one
  answer that meets it.
- **Echo mode and the requeue engine.** Echo mode is a pure function that
  builds the preview, the count and the optional id list. The requeue engine
  is a method with a loop over an `array` of submission rows. It resets
  claimed rows in place and records each `push_to_queue` call in the ghost log
  of a `Producer` object.

Instants are integers counting microseconds since 1970-01-01T00:00:00Z.
`timezone.now()`, `PULLED_SUBMISSION_TIMEOUT` (seconds) and
`MAX_NUMBER_OF_FAILURES` are parameters. The database table is an array of
`Submission` values. `save()` writes the updated value back into its slot.

Modules: `Wrappers` (Option, Result), `Text` (split, join, `str`, `int`),
`Timestamps` (`parse_iso_8601_string`), `Submissions` (the record and its
reset), `Eligibility`, `Selection`, `Inspector` (echo mode), `Requeue`,
`Command` (`handle`), and `Scenarios` (one worked example).

Three behaviours of the code are easy to misread. The model follows the code
in each.

- `.exclude(lms_ack=1, retired=1)` removes only rows where **both** flags are
  set, because Django's `exclude(a, b)` means NOT(a AND b). A row with only one
  of the flags set can still be selected (`FlagExclusionIsConjunction`).
- With `--pull-time-end`, the exclusion becomes NOT(lms_ack AND retired AND
  pull_time IS NULL). The window already drops NULL pull times, so no flag
  exclusion is left at all (`WindowIgnoresFlags`).
- `--pull-time-start` given alone does not switch off the staleness clause;
  both conditions apply (`StartTimeKeepsStaleness`).

## Model

| member | source | states |
|---|---|---|
| `Text.Split` | queue/management/commands/queue_ungraded_submissions.py:73 | `split(',')` yields at least one piece and no piece holds the separator |
| `Text.JoinSplit` | queue/management/commands/queue_ungraded_submissions.py:73 | joining the pieces of a split with the separator gives back the option text |
| `Text.SplitJoin` | queue/management/commands/queue_ungraded_submissions.py:103 | splitting a comma-join of comma-free pieces gives back those pieces |
| `Text.Join` | queue/management/commands/queue_ungraded_submissions.py:103 | `','.join(ids)`; `JoinSplit` and `SplitJoin` prove it is the inverse of `Split` |
| `Text.NatToDecimal` | queue/management/commands/queue_ungraded_submissions.py:119 | `str(id)` is a non-empty string of digits with no leading zero (except for 0 itself) whose decimal value is the id |
| `Text.ParseInt` | queue/management/commands/queue_ungraded_submissions.py:75 | `int(token)` succeeds exactly on an optionally signed non-empty digit string |
| `Timestamps.ParseIso8601` | queue/management/commands/queue_ungraded_submissions.py:16-17 | a parsed timestamp has the `YYYY-MM-DDTHH:MM:SS.fZ` shape and valid calendar fields; any other shape is refused |
| `Timestamps.FormatParseRoundTrip` | queue/management/commands/queue_ungraded_submissions.py:17 | every valid date-time written as `YYYY-MM-DDTHH:MM:SS.ffffffZ` parses back to itself |
| `Timestamps.HelpTextExampleRejected` | queue/management/commands/queue_ungraded_submissions.py:42 | the help text's example `2017-01-01T00:00:00Z` is refused, since the format needs a fraction |
| `Timestamps.ToInstant` | queue/management/commands/queue_ungraded_submissions.py:17 | the instant of a valid UTC date-time keeps its microsecond as the remainder modulo one second and its time of day as the seconds modulo one day |
| `Eligibility.ParseTime` | queue/management/commands/queue_ungraded_submissions.py:76-79 | a time option becomes an instant, or fails with MalformedTimestamp naming the text exactly when it does not parse |
| `Eligibility.ParseIds` | queue/management/commands/queue_ungraded_submissions.py:74-75 | the `--ids` tokens convert exactly when every token is an integer; a failure names a token that is not |
| `Eligibility.ParseOptions` | queue/management/commands/queue_ungraded_submissions.py:72-91 | parsing succeeds iff neither given time option is malformed and every given `--ids` token is an integer; a bad start time, else a bad end time, else the bad id token is the error; on success each option applies only when non-empty, queues are split at commas, and the instants and ids are exactly what `ParseTime` and `ParseIds` give for the option text |
| `Eligibility.BuildQuery` | queue/management/commands/queue_ungraded_submissions.py:66-87 | the query `handle` builds has two flag exclusions, or three with an end time; `QueryMatchesEligible` states which rows it matches |
| `Eligibility.BuildQueryClauses` | queue/management/commands/queue_ungraded_submissions.py:66-87 | both flags are always excluded; the NULL pull-time exclusion is present iff an end time is given; the staleness clause iff none is; the failure ceiling iff failures are not ignored |
| `Eligibility.Holds` | queue/management/commands/queue_ungraded_submissions.py:70-92 | a single Django lookup on one row, with comparisons on a NULL pull time false; `FiltersMeaning` and `ExcludesMeaning` spell out what it means for the built query |
| `Eligibility.Matches` | queue/management/commands/queue_ungraded_submissions.py:89-92 | `filter(...).exclude(...)`: every filter lookup holds and not every exclude lookup holds; `QueryMatchesEligible` ties it to `Eligible` |
| `Eligibility.Eligible` | queue/management/commands/queue_ungraded_submissions.py:65-92 | the field-by-field condition a requeued row meets; `QueryMatchesEligible` proves the built query matches exactly these rows |
| `Eligibility.FiltersMeaning` | queue/management/commands/queue_ungraded_submissions.py:70-87 | the `filter` lookups hold iff queue, id, start, end-or-staleness and failure-ceiling conditions all hold, with NULL pull times failing comparisons |
| `Eligibility.ExcludesMeaning` | queue/management/commands/queue_ungraded_submissions.py:66-92 | the `exclude` removes a row iff lms_ack and retired are both set and, with an end time, its pull time is NULL |
| `Eligibility.QueryMatchesEligible` | queue/management/commands/queue_ungraded_submissions.py:65-92 | the built query matches a row iff the field-by-field `Eligible` predicate holds |
| `Eligibility.FlagExclusionIsConjunction` | queue/management/commands/queue_ungraded_submissions.py:66-92 | without an end time a row with both flags never matches; a row with one flag matches exactly when the same row with no flags would |
| `Eligibility.WindowIgnoresFlags` | queue/management/commands/queue_ungraded_submissions.py:78-92 | with an end time the flags have no effect on matching |
| `Eligibility.StartTimeKeepsStaleness` | queue/management/commands/queue_ungraded_submissions.py:76-85 | with a start time and no end time a match has a pull time between the start and the staleness cutoff |
| `Selection.MatchingFrom` | queue/management/commands/queue_ungraded_submissions.py:89-92 | yields exactly the matching row positions, strictly increasing |
| `Selection.IsSelection` | queue/management/commands/queue_ungraded_submissions.py:89-93 | every matching row's position once, no other position, latest push time first; `Select` meets it and `SelectionCountIsDetermined` shows the count does not depend on tie order |
| `Selection.Insert` | queue/management/commands/queue_ungraded_submissions.py:93 | inserting into a push-time-descending list keeps it sorted and adds exactly the new position |
| `Selection.SortByPushDesc` | queue/management/commands/queue_ungraded_submissions.py:93 | the result holds the same positions, the same number of them, in descending push time, and stays duplicate-free |
| `Selection.Select` | queue/management/commands/queue_ungraded_submissions.py:89-93 | the ordered matches hold every matching row exactly once and nothing else, latest push time first |
| `Selection.SelectionCountIsDetermined` | queue/management/commands/queue_ungraded_submissions.py:99 | any two valid orderings of the same matches have the same count |
| `Selection.SelectionGuarantees` | queue/management/commands/queue_ungraded_submissions.py:72-92 | every selected row is in the queue and id lists and under the failure ceiling; it is stale or unclaimed, or in the explicit window; without an end time it is never both acknowledged and retired |
| `Submissions.Reset` | queue/management/commands/queue_ungraded_submissions.py:114-117 | a claimed row gets one more failure, no pull time and an empty pull key; an unclaimed row is unchanged; identity, queue and flags are kept |
| `Submissions.ResetIdempotent` | queue/management/commands/queue_ungraded_submissions.py:114 | a reset row is unclaimed, so a second reset changes nothing |
| `Inspector.IdTexts` | queue/management/commands/queue_ungraded_submissions.py:102-103 | one comma-free string per match that reads back as the match's id |
| `Inspector.Project` | queue/management/commands/queue_ungraded_submissions.py:97 | the seven `ECHO_PROPERTIES` fields of a row; `Echo` states that each preview is this projection of the match at its position |
| `Inspector.Echo` | queue/management/commands/queue_ungraded_submissions.py:95-103 | echo shows min(count, 25) previews, each the seven echo fields of the match at that position; it reports the true count; it adds the id list iff count > 25 |
| `Inspector.EchoIdsListEveryMatch` | queue/management/commands/queue_ungraded_submissions.py:101-103 | the echoed id list splits back into exactly the ids of all matches, in order |
| `Requeue.Producer.PushToQueue` | queue/management/commands/queue_ungraded_submissions.py:119 | each push appends one (queue, id) dispatch to the log |
| `Requeue.DispatchFor` | queue/management/commands/queue_ungraded_submissions.py:119 | a row's dispatch names its queue and an id string without a comma that `int()` reads back as the row's id |
| `Requeue.Dispatches` | queue/management/commands/queue_ungraded_submissions.py:119 | one dispatch per match, in match order, of its queue name and `str(id)` |
| `Requeue.RequeuedRows` | queue/management/commands/queue_ungraded_submissions.py:113-118 | matched rows are reset and all other rows are left as they were |
| `Requeue.RequeueSubmissions` | queue/management/commands/queue_ungraded_submissions.py:107-120 | zero matches report "nothing to queue" and change nothing; otherwise the table becomes `RequeuedRows` and the log grows by exactly `Dispatches` |
| `Requeue.RequeueOne` | queue/management/commands/queue_ungraded_submissions.py:114-119 | one iteration resets and saves the row at its position (a no-op for an unclaimed row) and pushes exactly one dispatch of that row's queue and id |
| `Requeue.RequeueStepRows` | queue/management/commands/queue_ungraded_submissions.py:113-118 | the next match is still untouched when the loop reaches it, and its reset is the only change the iteration makes |
| `Requeue.RequeueStepDispatch` | queue/management/commands/queue_ungraded_submissions.py:119 | a run over one more match has exactly one more dispatch at the end, for that match |
| `Requeue.DispatchedOncePerMatch` | queue/management/commands/queue_ungraded_submissions.py:113-119 | with unique ids, dispatched id strings are pairwise different; each names its row's queue and reads back as its id |
| `Requeue.RequeueResetsClaims` | queue/management/commands/queue_ungraded_submissions.py:113-118 | after a run no match is claimed; a failure count rises by one exactly for a claimed match and never falls |
| `Requeue.RequeueRowsIdempotent` | queue/management/commands/queue_ungraded_submissions.py:113-118 | requeueing the same positions a second time changes no row |
| `Command.Matching` | queue/management/commands/queue_ungraded_submissions.py:65-94 | a malformed option yields its error; otherwise the result is a valid ordered selection for the built query |
| `Command.Handle` | queue/management/commands/queue_ungraded_submissions.py:65-105 | a malformed option aborts with no row changed and nothing dispatched; echo reports and changes nothing; otherwise the requeue effects of the selected matches |
| `Command.DispatchesFollowSelection` | queue/management/commands/queue_ungraded_submissions.py:93-119 | there is one dispatch per match, to its queue with its id, latest push time first, and every matching row is dispatched |
| `Scenarios.StaleClaimOnNamedQueue` | queue/management/commands/queue_ungraded_submissions.py:65-119 | a row pulled two hours ago on q1, with a one-hour timeout and `--queues=q1`, is selected, reset to one failure with no claim, and dispatched as ("q1", "7") |

## Left out

- Output text: the stdout messages, `pprint` formatting and logging. Echo mode
  is modelled only as its content: the previews, the count and the id list.
  The requeue report is modelled as its count.
- Option parsing (`add_arguments`). Options arrive as a value; an empty string
  stands for an option not given, as Python's truthiness treats both alike.
- Failing `save()` or `push_to_queue`. In the code the exception ends the run
  and keeps the earlier iterations' effects. The model has no failing call.
  The producer's transport is not part of this model; it is a log of calls.
- Query execution details. The preview, the count, the id list and the loop
  are separate SQL queries in the code. The model evaluates one ordered match
  list, so ties in `push_time` are broken the same way for all four. NULL
  `push_time` values and their database-specific sort position are not
  modelled: push times are integers.
- `Timestamps.ParseIso8601` accepts only two-digit month, day, hour, minute
  and second fields. Python's `strptime` also accepts one-digit forms and
  non-ASCII digits.
- `Text.ParseInt` does not accept the surrounding whitespace, the digit
  underscores or the non-ASCII decimal digits that Python's `int()` allows.
- `num_failures` is an unbounded integer. The database column's width is not
  modelled.
- Submission fields the command neither filters on nor writes (the payload,
  the header, arrival time and others).
- Concurrent runs. The command takes no locks, and the model is a single run.
- The test module under `queue/management/commands/tests/`. It patches a name
  the command does not use and asserts nothing.

