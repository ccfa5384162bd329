/**
 * `Submission.objects.filter(...).exclude(...).order_by('-push_time')`: the
 * positions in the table of the matching rows, latest push time first.  The
 * database leaves the order of equal push times open; `IsSelection` says what
 * any answer satisfies and `Select` is one such answer.
 */
module Selection {
  import opened Submissions
  import opened Eligibility

  predicate InRange(m: seq<nat>, n: nat) {
    forall k :: 0 <= k < |m| ==> m[k] < n
  }

  predicate Distinct(m: seq<nat>) {
    forall j, k :: 0 <= j < k < |m| ==> m[j] != m[k]
  }

  predicate SortedByPushDesc(rows: seq<Submission>, m: seq<nat>)
    requires InRange(m, |rows|)
  {
    forall j, k :: 0 <= j < k < |m| ==> rows[m[j]].pushTime >= rows[m[k]].pushTime
  }

  /** Every matching row exactly once, none other, in descending push time. */
  ghost predicate IsSelection(rows: seq<Submission>, q: Query, m: seq<nat>) {
    && InRange(m, |rows|)
    && Distinct(m)
    && (forall i :: i in m <==> 0 <= i < |rows| && Matches(q, rows[i]))
    && SortedByPushDesc(rows, m)
  }

  /** The matching positions from `lo` on, in table order. */
  function MatchingFrom(rows: seq<Submission>, q: Query, lo: nat): (r: seq<nat>)
    requires lo <= |rows|
    ensures forall k :: 0 <= k < |r| ==> lo <= r[k] < |rows| && Matches(q, rows[r[k]])
    ensures forall i :: lo <= i < |rows| && Matches(q, rows[i]) ==> i in r
    ensures forall j, k :: 0 <= j < k < |r| ==> r[j] < r[k]
    decreases |rows| - lo
  {
    if lo == |rows| then []
    else
      var rest := MatchingFrom(rows, q, lo + 1);
      if Matches(q, rows[lo]) then [lo] + rest else rest
  }

  lemma SortedCons(rows: seq<Submission>, h: nat, t: seq<nat>)
    requires h < |rows| && InRange(t, |rows|) && SortedByPushDesc(rows, t)
    requires forall i :: i in t ==> rows[h].pushTime >= rows[i].pushTime
    ensures InRange([h] + t, |rows|) && SortedByPushDesc(rows, [h] + t)
  {
    var r := [h] + t;
    forall j, k | 0 <= j < k < |r| ensures rows[r[j]].pushTime >= rows[r[k]].pushTime {
      assert r[k] == t[k - 1];
      if j > 0 { assert r[j] == t[j - 1]; } else { assert t[k - 1] in t; }
    }
  }

  lemma DistinctCons(h: nat, t: seq<nat>)
    ensures Distinct(t) && h !in t ==> Distinct([h] + t)
  {
    if Distinct(t) && h !in t {
      var r := [h] + t;
      forall j, k | 0 <= j < k < |r| ensures r[j] != r[k] {
        assert r[k] == t[k - 1];
        if j > 0 { assert r[j] == t[j - 1]; } else { assert t[k - 1] in t; }
      }
    }
  }

  /** In a list sorted by descending push time, the head's push time bounds every element's. */
  lemma HeadBound(rows: seq<Submission>, h: nat, m: seq<nat>)
    requires h < |rows| && InRange(m, |rows|) && SortedByPushDesc(rows, m)
    requires |m| == 0 || rows[h].pushTime >= rows[m[0]].pushTime
    ensures forall i :: i in m ==> rows[h].pushTime >= rows[i].pushTime
  {
    forall i | i in m ensures rows[h].pushTime >= rows[i].pushTime {
      var k :| 0 <= k < |m| && m[k] == i;
      if k > 0 { assert rows[m[0]].pushTime >= rows[m[k]].pushTime; }
    }
  }

  /** When `x` was pushed before the head, the head bounds the result of inserting `x` into the tail. */
  lemma HeadBoundsInsertion(rows: seq<Submission>, x: nat, m: seq<nat>, rest: seq<nat>)
    requires x < |rows| && InRange(m, |rows|) && SortedByPushDesc(rows, m) && |m| > 0
    requires rows[x].pushTime < rows[m[0]].pushTime
    requires forall i :: i in rest ==> i == x || i in m[1..]
    ensures forall i :: i in rest ==> rows[m[0]].pushTime >= rows[i].pushTime
  {
    HeadBound(rows, m[0], m);
    forall i | i in rest ensures rows[m[0]].pushTime >= rows[i].pushTime {
      if i != x {
        var k :| 0 <= k < |m[1..]| && m[1..][k] == i;
        assert m[k + 1] == i;
        assert i in m;
      }
    }
  }

  /** The tail of a duplicate-free list is duplicate-free and lacks the head. */
  lemma DistinctTail(m: seq<nat>)
    requires |m| > 0
    ensures Distinct(m) ==> Distinct(m[1..]) && m[0] !in m[1..]
  {
    if Distinct(m) {
      var tail := m[1..];
      forall j, k | 0 <= j < k < |tail| ensures tail[j] != tail[k] {
        assert tail[j] == m[j + 1] && tail[k] == m[k + 1];
      }
      forall k | 0 <= k < |tail| ensures tail[k] != m[0] {
        assert tail[k] == m[k + 1];
      }
    }
  }

  /** Places `x` before the first position whose push time is not later than its own. */
  function Insert(rows: seq<Submission>, x: nat, m: seq<nat>): (r: seq<nat>)
    requires x < |rows| && InRange(m, |rows|)
    requires SortedByPushDesc(rows, m)
    ensures |r| == |m| + 1 && InRange(r, |rows|)
    ensures forall i :: i in r <==> i == x || i in m
    ensures SortedByPushDesc(rows, r)
    ensures Distinct(m) && x !in m ==> Distinct(r)
  {
    if |m| == 0 || rows[x].pushTime >= rows[m[0]].pushTime then
      HeadBound(rows, x, m);
      SortedCons(rows, x, m);
      DistinctCons(x, m);
      [x] + m
    else
      var rest := Insert(rows, x, m[1..]);
      HeadBoundsInsertion(rows, x, m, rest);
      SortedCons(rows, m[0], rest);
      DistinctTail(m);
      DistinctCons(m[0], rest);
      assert m == [m[0]] + m[1..];
      [m[0]] + rest
  }

  /** Insertion sort on push time, latest first. */
  function SortByPushDesc(rows: seq<Submission>, m: seq<nat>): (r: seq<nat>)
    requires InRange(m, |rows|)
    ensures |r| == |m| && InRange(r, |rows|)
    ensures forall i :: i in r <==> i in m
    ensures SortedByPushDesc(rows, r)
    ensures Distinct(m) ==> Distinct(r)
  {
    if |m| == 0 then []
    else Insert(rows, m[0], SortByPushDesc(rows, m[1..]))
  }

  /** The ordered match list the command walks. */
  function Select(rows: seq<Submission>, q: Query): (m: seq<nat>)
    ensures IsSelection(rows, q, m)
  {
    var matching := MatchingFrom(rows, q, 0);
    SortByPushDesc(rows, matching)
  }

  function Elements(m: seq<nat>): set<nat> {
    set i | i in m
  }

  lemma {:induction false} DistinctCardinality(m: seq<nat>)
    requires Distinct(m)
    ensures |Elements(m)| == |m|
  {
    if |m| > 0 {
      var tail := m[1..];
      assert Distinct(tail) by {
        forall j, k | 0 <= j < k < |tail| ensures tail[j] != tail[k] {
          assert tail[j] == m[j + 1] && tail[k] == m[k + 1];
        }
      }
      DistinctCardinality(tail);
      assert m[0] !in Elements(tail) by {
        forall k | 0 <= k < |tail| ensures tail[k] != m[0] { assert tail[k] == m[k + 1]; }
      }
      assert Elements(m) == Elements(tail) + {m[0]} by {
        assert m == [m[0]] + tail;
      }
    }
  }

  /**
   * The count does not depend on how ties are broken: any two answers to the
   * same query on the same rows have the same length.
   */
  lemma SelectionCountIsDetermined(rows: seq<Submission>, q: Query, m1: seq<nat>, m2: seq<nat>)
    requires IsSelection(rows, q, m1) && IsSelection(rows, q, m2)
    ensures |m1| == |m2|
  {
    DistinctCardinality(m1);
    DistinctCardinality(m2);
    assert Elements(m1) == Elements(m2);
  }

  /**
   * What every selected submission satisfies, for the query `handle` builds:
   * the requested queues and ids, the failure ceiling, the staleness rule or
   * the explicit window, and the flag exclusion.
   */
  lemma SelectionGuarantees(rows: seq<Submission>, c: Criteria, now: int, timeoutSeconds: int,
                            maxFailures: int, m: seq<nat>, k: nat)
    requires IsSelection(rows, BuildQuery(c, now, timeoutSeconds, maxFailures), m)
    requires k < |m|
    ensures var s := rows[m[k]];
      && (c.queueNames.Some? ==> s.queueName in c.queueNames.value)
      && (c.ids.Some? ==> s.id in c.ids.value)
      && (!c.ignoreFailures ==> s.numFailures < maxFailures)
      && (c.pullTimeEnd.None? ==>
            s.pullTime.None? || s.pullTime.value <= StaleCutoff(now, timeoutSeconds))
      && (c.pullTimeEnd.Some? ==> s.pullTime.Some? && s.pullTime.value <= c.pullTimeEnd.value)
      && (c.pullTimeStart.Some? ==> s.pullTime.Some? && s.pullTime.value >= c.pullTimeStart.value)
      && (c.pullTimeEnd.None? ==> !(s.lmsAck && s.retired))
  {
    assert m[k] in m;
    QueryMatchesEligible(rows[m[k]], c, now, timeoutSeconds, maxFailures);
  }
}
