/**
 * The three grouped sums behind the payroll report:
 *
 *   SELECT employee_id, SUM(hours)  FROM work_hours  WHERE work_date BETWEEN lo AND hi GROUP BY employee_id
 *   SELECT employee_id, SUM(amount) FROM adjustments WHERE adjustment_date BETWEEN lo AND hi
 *                                                      AND adjustment_type = kind GROUP BY employee_id
 *
 * and the left join that reads them back with missing sums filled with 0.
 * `TotalHours` and `TotalAdjustments` are the per-employee sums these queries
 * are meant to compute, written directly over the tables.
 */
module Aggregation {
  import opened Collation
  import opened Dates
  import opened Records

  /** The `(employee_id, value)` rows a `WHERE` clause lets through, before grouping. */
  type Pair = (int, real)

  /** The ids that occur in `pairs`: the groups of `GROUP BY employee_id`. */
  function KeysOf(pairs: seq<Pair>): set<int>
  {
    set i | 0 <= i < |pairs| :: pairs[i].0
  }

  /** Sum of the values paired with `k`. */
  function SumOf(pairs: seq<Pair>, k: int): real
  {
    if |pairs| == 0 then 0.0
    else (if pairs[0].0 == k then pairs[0].1 else 0.0) + SumOf(pairs[1..], k)
  }

  lemma KeysOfCons(pairs: seq<Pair>)
    requires |pairs| > 0
    ensures KeysOf(pairs) == {pairs[0].0} + KeysOf(pairs[1..])
  {
    forall k | k in KeysOf(pairs) ensures k in {pairs[0].0} + KeysOf(pairs[1..]) {
      var i :| 0 <= i < |pairs| && pairs[i].0 == k;
      if i > 0 {
        assert pairs[1..][i - 1] == pairs[i];
      }
    }
    forall k | k in KeysOf(pairs[1..]) ensures k in KeysOf(pairs) {
      var i :| 0 <= i < |pairs[1..]| && pairs[1..][i].0 == k;
      assert pairs[i + 1] == pairs[1..][i];
    }
  }

  /** A key without rows sums to 0. */
  lemma {:induction false} SumOfAbsent(pairs: seq<Pair>, k: int)
    requires k !in KeysOf(pairs)
    ensures SumOf(pairs, k) == 0.0
  {
    if |pairs| > 0 {
      KeysOfCons(pairs);
      SumOfAbsent(pairs[1..], k);
    }
  }

  /** `GROUP BY employee_id` with `SUM(value)`: one entry per id that has rows, holding the sum of its rows. */
  function GroupSum(pairs: seq<Pair>): (m: map<int, real>)
    ensures m.Keys == KeysOf(pairs)
    ensures forall k :: k in m ==> m[k] == SumOf(pairs, k)
  {
    if |pairs| == 0 then map[]
    else
      var rest := GroupSum(pairs[1..]);
      var k := pairs[0].0;
      KeysOfCons(pairs);
      if k in rest then rest[k := pairs[0].1 + rest[k]]
      else
        SumOfAbsent(pairs[1..], k);
        rest[k := pairs[0].1]
  }

  /** One column of the left join: the grouped sum of `k`, or 0 (`fillna(0)`) when `k` has no group. */
  function SumOrZero(m: map<int, real>, k: int): real
  {
    if k in m then m[k] else 0.0
  }

  /** The left join followed by `fillna(0)` yields the full sum for every id, grouped or not. */
  lemma {:induction false} LeftJoinSum(pairs: seq<Pair>, k: int)
    ensures SumOrZero(GroupSum(pairs), k) == SumOf(pairs, k)
  {
    if k !in KeysOf(pairs) {
      SumOfAbsent(pairs, k);
    }
  }

  /** `SELECT employee_id, hours FROM work_hours WHERE work_date BETWEEN lo AND hi`. */
  function HoursPairs(work: seq<WorkEntry>, lo: string, hi: string): seq<Pair>
  {
    if |work| == 0 then []
    else
      (if Between(work[0].workDate, lo, hi) then [(work[0].employeeId, work[0].hours)] else [])
      + HoursPairs(work[1..], lo, hi)
  }

  /** `SELECT employee_id, amount FROM adjustments WHERE adjustment_date BETWEEN lo AND hi AND adjustment_type = kind`. */
  function AmountPairs(adjustments: seq<Adjustment>, kind: string, lo: string, hi: string): seq<Pair>
  {
    if |adjustments| == 0 then []
    else
      var a := adjustments[0];
      (if Between(a.adjustmentDate, lo, hi) && a.adjustmentType == kind then [(a.employeeId, a.amount)] else [])
      + AmountPairs(adjustments[1..], kind, lo, hi)
  }

  /** Whether a work entry counts for employee `id` in `[lo, hi]`. */
  predicate WorkCounts(w: WorkEntry, id: int, lo: string, hi: string)
  {
    w.employeeId == id && Between(w.workDate, lo, hi)
  }

  /** Whether an adjustment counts toward employee `id`'s `kind` total in `[lo, hi]`. */
  predicate AdjustmentCounts(a: Adjustment, id: int, kind: string, lo: string, hi: string)
  {
    a.employeeId == id && a.adjustmentType == kind && Between(a.adjustmentDate, lo, hi)
  }

  /** Hours of employee `id` worked on dates in `[lo, hi]`. */
  function TotalHours(work: seq<WorkEntry>, id: int, lo: string, hi: string): real
  {
    if |work| == 0 then 0.0
    else (if WorkCounts(work[0], id, lo, hi) then work[0].hours else 0.0) + TotalHours(work[1..], id, lo, hi)
  }

  /** Amounts of employee `id`'s adjustments of type `kind` dated in `[lo, hi]`. */
  function TotalAdjustments(adjustments: seq<Adjustment>, id: int, kind: string, lo: string, hi: string): real
  {
    if |adjustments| == 0 then 0.0
    else
      (if AdjustmentCounts(adjustments[0], id, kind, lo, hi) then adjustments[0].amount else 0.0)
      + TotalAdjustments(adjustments[1..], id, kind, lo, hi)
  }

  lemma SumOfConcat(p: seq<Pair>, q: seq<Pair>, k: int)
    ensures SumOf(p + q, k) == SumOf(p, k) + SumOf(q, k)
  {
    if |p| > 0 {
      assert (p + q)[1..] == p[1..] + q;
    } else {
      assert p + q == q;
    }
  }

  /** The grouped hours query sums, per employee, exactly the hours of `TotalHours`. */
  lemma {:induction false} HoursQuerySum(work: seq<WorkEntry>, id: int, lo: string, hi: string)
    ensures SumOrZero(GroupSum(HoursPairs(work, lo, hi)), id) == TotalHours(work, id, lo, hi)
  {
    LeftJoinSum(HoursPairs(work, lo, hi), id);
    HoursPairsSum(work, id, lo, hi);
  }

  lemma {:induction false} HoursPairsSum(work: seq<WorkEntry>, id: int, lo: string, hi: string)
    ensures SumOf(HoursPairs(work, lo, hi), id) == TotalHours(work, id, lo, hi)
  {
    if |work| > 0 {
      var head := if Between(work[0].workDate, lo, hi) then [(work[0].employeeId, work[0].hours)] else [];
      SumOfConcat(head, HoursPairs(work[1..], lo, hi), id);
      HoursPairsSum(work[1..], id, lo, hi);
    }
  }

  /** The grouped adjustments query of one type sums, per employee, exactly the amounts of `TotalAdjustments`. */
  lemma {:induction false} AdjustmentQuerySum(adjustments: seq<Adjustment>, id: int, kind: string, lo: string, hi: string)
    ensures SumOrZero(GroupSum(AmountPairs(adjustments, kind, lo, hi)), id) == TotalAdjustments(adjustments, id, kind, lo, hi)
  {
    LeftJoinSum(AmountPairs(adjustments, kind, lo, hi), id);
    AmountPairsSum(adjustments, id, kind, lo, hi);
  }

  lemma {:induction false} AmountPairsSum(adjustments: seq<Adjustment>, id: int, kind: string, lo: string, hi: string)
    ensures SumOf(AmountPairs(adjustments, kind, lo, hi), id) == TotalAdjustments(adjustments, id, kind, lo, hi)
  {
    if |adjustments| > 0 {
      var a := adjustments[0];
      var head := if Between(a.adjustmentDate, lo, hi) && a.adjustmentType == kind then [(a.employeeId, a.amount)] else [];
      SumOfConcat(head, AmountPairs(adjustments[1..], kind, lo, hi), id);
      AmountPairsSum(adjustments[1..], id, kind, lo, hi);
    }
  }

  /** An id has a group in the hours query exactly when one of its work entries is dated in range. */
  lemma {:induction false} HoursGroupExists(work: seq<WorkEntry>, id: int, lo: string, hi: string)
    ensures id in KeysOf(HoursPairs(work, lo, hi)) <==> exists i :: 0 <= i < |work| && WorkCounts(work[i], id, lo, hi)
  {
    if |work| > 0 {
      var head := if Between(work[0].workDate, lo, hi) then [(work[0].employeeId, work[0].hours)] else [];
      var tail := HoursPairs(work[1..], lo, hi);
      HoursGroupExists(work[1..], id, lo, hi);
      KeysOfConcat(head, tail);
      if exists i :: 0 <= i < |work| && WorkCounts(work[i], id, lo, hi) {
        var i :| 0 <= i < |work| && WorkCounts(work[i], id, lo, hi);
        if i > 0 {
          assert work[1..][i - 1] == work[i];
        }
      }
      if exists i :: 0 <= i < |work[1..]| && WorkCounts(work[1..][i], id, lo, hi) {
        var i :| 0 <= i < |work[1..]| && WorkCounts(work[1..][i], id, lo, hi);
        assert work[i + 1] == work[1..][i];
      }
    }
  }

  lemma KeysOfConcat(p: seq<Pair>, q: seq<Pair>)
    ensures KeysOf(p + q) == KeysOf(p) + KeysOf(q)
  {
    forall k | k in KeysOf(p + q) ensures k in KeysOf(p) + KeysOf(q) {
      var i :| 0 <= i < |p + q| && (p + q)[i].0 == k;
      if i >= |p| {
        assert q[i - |p|] == (p + q)[i];
      }
    }
    forall k | k in KeysOf(q) ensures k in KeysOf(p + q) {
      var i :| 0 <= i < |q| && q[i].0 == k;
      assert (p + q)[i + |p|] == q[i];
    }
    forall k | k in KeysOf(p) ensures k in KeysOf(p + q) {
      var i :| 0 <= i < |p| && p[i].0 == k;
      assert (p + q)[i] == p[i];
    }
  }

  /** Logging one more work entry adds its hours to its own employee's total only, and only when it is in range. */
  lemma {:induction false} TotalHoursAppend(work: seq<WorkEntry>, w: WorkEntry, id: int, lo: string, hi: string)
    ensures TotalHours(work + [w], id, lo, hi)
            == TotalHours(work, id, lo, hi) + (if WorkCounts(w, id, lo, hi) then w.hours else 0.0)
  {
    if |work| == 0 {
      assert work + [w] == [w];
    } else {
      assert (work + [w])[1..] == work[1..] + [w];
      TotalHoursAppend(work[1..], w, id, lo, hi);
    }
  }

  /** Logging one more adjustment changes only its own employee's total of its own type, and only when it is in range. */
  lemma {:induction false} TotalAdjustmentsAppend(adjustments: seq<Adjustment>, a: Adjustment, id: int, kind: string,
                                                  lo: string, hi: string)
    ensures TotalAdjustments(adjustments + [a], id, kind, lo, hi)
            == TotalAdjustments(adjustments, id, kind, lo, hi) + (if AdjustmentCounts(a, id, kind, lo, hi) then a.amount else 0.0)
  {
    if |adjustments| == 0 {
      assert adjustments + [a] == [a];
    } else {
      assert (adjustments + [a])[1..] == adjustments[1..] + [a];
      TotalAdjustmentsAppend(adjustments[1..], a, id, kind, lo, hi);
    }
  }

  /** Splitting a range at `m`, where no stored date lies strictly between `m` and `m2`, splits every
      employee's hours total into the totals of the two sub-ranges `[lo, m]` and `[m2, hi]`. */
  lemma {:induction false} TotalHoursSplit(work: seq<WorkEntry>, id: int, lo: string, m: string, m2: string, hi: string)
    requires LexLe(lo, m) && !LexLe(m2, m) && LexLe(m2, hi)
    requires forall i :: 0 <= i < |work| ==> LexLe(work[i].workDate, m) || LexLe(m2, work[i].workDate)
    ensures TotalHours(work, id, lo, hi) == TotalHours(work, id, lo, m) + TotalHours(work, id, m2, hi)
  {
    if |work| > 0 {
      SplitDate(work[0].workDate, lo, m, m2, hi);
      assert forall i :: 0 <= i < |work[1..]| ==> work[1..][i] == work[i + 1];
      TotalHoursSplit(work[1..], id, lo, m, m2, hi);
    }
  }

  /** The same split for every employee's total of each adjustment type, bonuses and deductions alike. */
  lemma {:induction false} TotalAdjustmentsSplit(adjustments: seq<Adjustment>, id: int, kind: string,
                                                 lo: string, m: string, m2: string, hi: string)
    requires LexLe(lo, m) && !LexLe(m2, m) && LexLe(m2, hi)
    requires forall i :: 0 <= i < |adjustments| ==> LexLe(adjustments[i].adjustmentDate, m) || LexLe(m2, adjustments[i].adjustmentDate)
    ensures TotalAdjustments(adjustments, id, kind, lo, hi)
            == TotalAdjustments(adjustments, id, kind, lo, m) + TotalAdjustments(adjustments, id, kind, m2, hi)
  {
    if |adjustments| > 0 {
      SplitDate(adjustments[0].adjustmentDate, lo, m, m2, hi);
      assert forall i :: 0 <= i < |adjustments[1..]| ==> adjustments[1..][i] == adjustments[i + 1];
      TotalAdjustmentsSplit(adjustments[1..], id, kind, lo, m, m2, hi);
    }
  }

  /** The calendar split: for stored ISO dates, a period from `start` to `end` splits at any day `d` into
      `start` to `d` and the day after `d` to `end`, for the hours and for every adjustment total. */
  lemma SplitPeriodAtDay(work: seq<WorkEntry>, adjustments: seq<Adjustment>, id: int, kind: string,
                         start: CalendarDate, d: CalendarDate, end: CalendarDate)
    requires ValidDate(start) && ValidDate(d) && ValidDate(end)
    requires DateLe(start, d) && DateLe(NextDay(d), end)
    requires forall i :: 0 <= i < |work| ==> IsIsoDate(work[i].workDate)
    requires forall i :: 0 <= i < |adjustments| ==> IsIsoDate(adjustments[i].adjustmentDate)
    ensures TotalHours(work, id, Iso(start), Iso(end))
            == TotalHours(work, id, Iso(start), Iso(d)) + TotalHours(work, id, Iso(NextDay(d)), Iso(end))
    ensures TotalAdjustments(adjustments, id, kind, Iso(start), Iso(end))
            == TotalAdjustments(adjustments, id, kind, Iso(start), Iso(d))
               + TotalAdjustments(adjustments, id, kind, Iso(NextDay(d)), Iso(end))
  {
    var next := NextDay(d);
    var m, m2 := Iso(d), Iso(next);
    IsoOrder(start, d);
    IsoOrder(next, d);
    IsoOrder(next, end);
    forall i | 0 <= i < |work| ensures LexLe(work[i].workDate, m) || LexLe(m2, work[i].workDate) {
      var c :| ValidDate(c) && Iso(c) == work[i].workDate;
      NoDateBetweenDays(c, d);
      IsoOrder(c, d);
      IsoOrder(next, c);
    }
    forall i | 0 <= i < |adjustments| ensures LexLe(adjustments[i].adjustmentDate, m) || LexLe(m2, adjustments[i].adjustmentDate) {
      var c :| ValidDate(c) && Iso(c) == adjustments[i].adjustmentDate;
      NoDateBetweenDays(c, d);
      IsoOrder(c, d);
      IsoOrder(next, c);
    }
    TotalHoursSplit(work, id, Iso(start), m, m2, Iso(end));
    TotalAdjustmentsSplit(adjustments, id, kind, Iso(start), m, m2, Iso(end));
  }

  /** A date gap at `(m, m2)` splits `[lo, hi]` into the disjoint `[lo, m]` and `[m2, hi]`. */
  lemma SplitDate(d: string, lo: string, m: string, m2: string, hi: string)
    requires LexLe(lo, m) && !LexLe(m2, m) && LexLe(m2, hi)
    requires LexLe(d, m) || LexLe(m2, d)
    ensures Between(d, lo, hi) <==> Between(d, lo, m) || Between(d, m2, hi)
    ensures !(Between(d, lo, m) && Between(d, m2, hi))
  {
    LexLeTotal(m, m2);
    if LexLe(d, m) {
      if LexLe(m2, d) {
        LexLeTrans(m2, d, m);
      }
      LexLeTrans(d, m, m2);
      LexLeTrans(d, m2, hi);
    } else {
      LexLeTrans(lo, m, m2);
      LexLeTrans(lo, m2, d);
    }
  }
}
