/**
 * The payroll report of `calculate_payroll`: the roster left-joined with the
 * grouped hours, bonus and deduction sums of a pay period, missing sums filled
 * with 0, gross and net pay per row, sorted by full name.
 */
module Payroll {
  import opened Collation
  import opened Dates
  import opened Records
  import opened Aggregation

  const Bonus: string := "bonus"
  const Deduction: string := "deduction"

  /** One report row: exactly the seven columns the report selects, in that order. */
  datatype PayrollRow = PayrollRow(fullName: string, hourlyRate: real, totalHours: real, grossPay: real,
                                   bonusTotal: real, deductionTotal: real, netPay: real)

  function NameOf(r: PayrollRow): string
  {
    r.fullName
  }

  /** `gross_pay = total_hours * hourly_rate` and `net_pay = gross_pay + bonus_total - deduction_total`. */
  predicate PayFormula(r: PayrollRow)
  {
    r.grossPay == r.totalHours * r.hourlyRate && r.netPay == r.grossPay + r.bonusTotal - r.deductionTotal
  }

  /** The row with the given sums and the pay computed from them. */
  function MakeRow(e: Employee, totalHours: real, bonusTotal: real, deductionTotal: real): (r: PayrollRow)
    ensures PayFormula(r)
    ensures r.fullName == e.fullName && r.hourlyRate == e.hourlyRate
    ensures r.totalHours == totalHours && r.bonusTotal == bonusTotal && r.deductionTotal == deductionTotal
  {
    var gross := totalHours * e.hourlyRate;
    PayrollRow(e.fullName, e.hourlyRate, totalHours, gross, bonusTotal, deductionTotal, gross + bonusTotal - deductionTotal)
  }

  /** What the report says of employee `e` for the period `[lo, hi]`: the employee's current rate,
      the sums of the entries that count for `e`, and the pay derived from them. */
  function ExpectedRow(e: Employee, work: seq<WorkEntry>, adjustments: seq<Adjustment>, lo: string, hi: string): PayrollRow
  {
    MakeRow(e, TotalHours(work, e.id, lo, hi),
            TotalAdjustments(adjustments, e.id, Bonus, lo, hi),
            TotalAdjustments(adjustments, e.id, Deduction, lo, hi))
  }

  function ExpectedRows(employees: seq<Employee>, work: seq<WorkEntry>, adjustments: seq<Adjustment>,
                        lo: string, hi: string): (rows: seq<PayrollRow>)
    ensures |rows| == |employees|
    ensures forall i :: 0 <= i < |employees| ==> rows[i] == ExpectedRow(employees[i], work, adjustments, lo, hi)
  {
    seq(|employees|, i requires 0 <= i < |employees| => ExpectedRow(employees[i], work, adjustments, lo, hi))
  }

  /** The grouped sums of the three queries for the period `[lo, hi]`. */
  datatype Sums = Sums(hours: map<int, real>, bonuses: map<int, real>, deductions: map<int, real>)

  function PeriodSums(work: seq<WorkEntry>, adjustments: seq<Adjustment>, lo: string, hi: string): Sums
  {
    Sums(GroupSum(HoursPairs(work, lo, hi)),
         GroupSum(AmountPairs(adjustments, Bonus, lo, hi)),
         GroupSum(AmountPairs(adjustments, Deduction, lo, hi)))
  }

  /** A roster row joined, each sum by the employee's own id, with missing sums filled with 0. */
  function JoinedRow(e: Employee, sums: Sums): PayrollRow
  {
    MakeRow(e, SumOrZero(sums.hours, e.id), SumOrZero(sums.bonuses, e.id), SumOrZero(sums.deductions, e.id))
  }

  /** The payroll report for the period from `start` to `end`, both inclusive. */
  function CalculatePayroll(employees: seq<Employee>, work: seq<WorkEntry>, adjustments: seq<Adjustment>,
                            start: CalendarDate, end: CalendarDate): (report: seq<PayrollRow>)
    requires DateLe(start, end)
    ensures |report| == |employees|
    ensures SortedBy(report, NameOf)
    ensures multiset(report) == multiset(ExpectedRows(employees, work, adjustments, Iso(start), Iso(end)))
  {
    if |employees| == 0 then []
    else
      var lo, hi := Iso(start), Iso(end);
      var sums := PeriodSums(work, adjustments, lo, hi);
      var rows := seq(|employees|, i requires 0 <= i < |employees| => JoinedRow(employees[i], sums));
      JoinedRowsExpected(employees, work, adjustments, lo, hi);
      assert rows == ExpectedRows(employees, work, adjustments, lo, hi);
      SortBy(rows, NameOf)
  }

  lemma JoinedRowsExpected(employees: seq<Employee>, work: seq<WorkEntry>, adjustments: seq<Adjustment>, lo: string, hi: string)
    ensures forall i :: 0 <= i < |employees| ==>
              JoinedRow(employees[i], PeriodSums(work, adjustments, lo, hi)) == ExpectedRow(employees[i], work, adjustments, lo, hi)
  {
    forall i | 0 <= i < |employees|
      ensures JoinedRow(employees[i], PeriodSums(work, adjustments, lo, hi)) == ExpectedRow(employees[i], work, adjustments, lo, hi)
    {
      var id := employees[i].id;
      HoursQuerySum(work, id, lo, hi);
      AdjustmentQuerySum(adjustments, id, Bonus, lo, hi);
      AdjustmentQuerySum(adjustments, id, Deduction, lo, hi);
    }
  }

  /** Every roster employee has a row in the report, holding the sums of that employee's entries in range. */
  lemma EveryEmployeeReported(employees: seq<Employee>, work: seq<WorkEntry>, adjustments: seq<Adjustment>,
                              start: CalendarDate, end: CalendarDate, i: int)
    requires DateLe(start, end) && 0 <= i < |employees|
    ensures ExpectedRow(employees[i], work, adjustments, Iso(start), Iso(end)) in CalculatePayroll(employees, work, adjustments, start, end)
  {
    var expected := ExpectedRows(employees, work, adjustments, Iso(start), Iso(end));
    assert expected[i] in multiset(expected);
  }

  /** Every report row belongs to a roster employee and holds that employee's sums; the pay formula holds on it. */
  lemma EveryRowFromRoster(employees: seq<Employee>, work: seq<WorkEntry>, adjustments: seq<Adjustment>,
                           start: CalendarDate, end: CalendarDate, r: PayrollRow)
    requires DateLe(start, end) && r in CalculatePayroll(employees, work, adjustments, start, end)
    ensures exists i :: 0 <= i < |employees| && r == ExpectedRow(employees[i], work, adjustments, Iso(start), Iso(end))
    ensures PayFormula(r)
  {
    var report := CalculatePayroll(employees, work, adjustments, start, end);
    var expected := ExpectedRows(employees, work, adjustments, Iso(start), Iso(end));
    assert r in multiset(report);
    assert r in multiset(expected);
    var i :| 0 <= i < |expected| && expected[i] == r;
  }

  /** An employee with no work entry and no bonus or deduction dated in the period still has a row,
      with every sum and both pays 0. */
  lemma IdleEmployeeReported(employees: seq<Employee>, work: seq<WorkEntry>, adjustments: seq<Adjustment>,
                             start: CalendarDate, end: CalendarDate, i: int)
    requires DateLe(start, end) && 0 <= i < |employees|
    requires forall k :: 0 <= k < |work| ==> !WorkCounts(work[k], employees[i].id, Iso(start), Iso(end))
    requires forall k :: 0 <= k < |adjustments| ==>
               !AdjustmentCounts(adjustments[k], employees[i].id, Bonus, Iso(start), Iso(end))
               && !AdjustmentCounts(adjustments[k], employees[i].id, Deduction, Iso(start), Iso(end))
    ensures PayrollRow(employees[i].fullName, employees[i].hourlyRate, 0.0, 0.0, 0.0, 0.0, 0.0)
            in CalculatePayroll(employees, work, adjustments, start, end)
  {
    var e := employees[i];
    var lo, hi := Iso(start), Iso(end);
    NoCountedHours(work, e.id, lo, hi);
    NoCountedAdjustments(adjustments, e.id, Bonus, lo, hi);
    NoCountedAdjustments(adjustments, e.id, Deduction, lo, hi);
    EveryEmployeeReported(employees, work, adjustments, start, end, i);
  }

  lemma {:induction false} NoCountedHours(work: seq<WorkEntry>, id: int, lo: string, hi: string)
    requires forall k :: 0 <= k < |work| ==> !WorkCounts(work[k], id, lo, hi)
    ensures TotalHours(work, id, lo, hi) == 0.0
  {
    if |work| > 0 {
      assert forall k :: 0 <= k < |work[1..]| ==> work[1..][k] == work[k + 1];
      NoCountedHours(work[1..], id, lo, hi);
    }
  }

  lemma {:induction false} NoCountedAdjustments(adjustments: seq<Adjustment>, id: int, kind: string, lo: string, hi: string)
    requires forall k :: 0 <= k < |adjustments| ==> !AdjustmentCounts(adjustments[k], id, kind, lo, hi)
    ensures TotalAdjustments(adjustments, id, kind, lo, hi) == 0.0
  {
    if |adjustments| > 0 {
      assert forall k :: 0 <= k < |adjustments[1..]| ==> adjustments[1..][k] == adjustments[k + 1];
      NoCountedAdjustments(adjustments[1..], id, kind, lo, hi);
    }
  }

  /** A work entry for an id outside the roster, or dated outside the period, changes no row of the report. */
  lemma UncountedWorkIgnored(employees: seq<Employee>, work: seq<WorkEntry>, adjustments: seq<Adjustment>,
                             start: CalendarDate, end: CalendarDate, w: WorkEntry)
    requires DateLe(start, end)
    requires (forall i :: 0 <= i < |employees| ==> employees[i].id != w.employeeId) || !Between(w.workDate, Iso(start), Iso(end))
    ensures CalculatePayroll(employees, work + [w], adjustments, start, end) == CalculatePayroll(employees, work, adjustments, start, end)
  {
    var lo, hi := Iso(start), Iso(end);
    forall i | 0 <= i < |employees|
      ensures ExpectedRow(employees[i], work + [w], adjustments, lo, hi) == ExpectedRow(employees[i], work, adjustments, lo, hi)
    {
      TotalHoursAppend(work, w, employees[i].id, lo, hi);
    }
    SameRowsSameReport(employees, work + [w], adjustments, work, adjustments, start, end);
  }

  /** An adjustment for an id outside the roster, dated outside the period, or of a type other than
      `bonus` and `deduction`, changes no row of the report. */
  lemma UncountedAdjustmentIgnored(employees: seq<Employee>, work: seq<WorkEntry>, adjustments: seq<Adjustment>,
                                   start: CalendarDate, end: CalendarDate, a: Adjustment)
    requires DateLe(start, end)
    requires || (forall i :: 0 <= i < |employees| ==> employees[i].id != a.employeeId)
             || !Between(a.adjustmentDate, Iso(start), Iso(end))
             || (a.adjustmentType != Bonus && a.adjustmentType != Deduction)
    ensures CalculatePayroll(employees, work, adjustments + [a], start, end) == CalculatePayroll(employees, work, adjustments, start, end)
  {
    var lo, hi := Iso(start), Iso(end);
    forall i | 0 <= i < |employees|
      ensures ExpectedRow(employees[i], work, adjustments + [a], lo, hi) == ExpectedRow(employees[i], work, adjustments, lo, hi)
    {
      TotalAdjustmentsAppend(adjustments, a, employees[i].id, Bonus, lo, hi);
      TotalAdjustmentsAppend(adjustments, a, employees[i].id, Deduction, lo, hi);
    }
    SameRowsSameReport(employees, work, adjustments + [a], work, adjustments, start, end);
  }

  /** A counted adjustment moves exactly one of its employee's two totals by its amount: the bonus total
      for a `bonus`, the deduction total for a `deduction`; the hours are untouched. */
  lemma AdjustmentCountsOnce(employees: seq<Employee>, work: seq<WorkEntry>, adjustments: seq<Adjustment>,
                             start: CalendarDate, end: CalendarDate, a: Adjustment, i: int)
    requires DateLe(start, end) && 0 <= i < |employees| && employees[i].id == a.employeeId
    requires Between(a.adjustmentDate, Iso(start), Iso(end))
    ensures var before := ExpectedRow(employees[i], work, adjustments, Iso(start), Iso(end));
            var after := ExpectedRow(employees[i], work, adjustments + [a], Iso(start), Iso(end));
            && after.totalHours == before.totalHours
            && after.bonusTotal == before.bonusTotal + (if a.adjustmentType == Bonus then a.amount else 0.0)
            && after.deductionTotal == before.deductionTotal + (if a.adjustmentType == Deduction then a.amount else 0.0)
  {
    var lo, hi := Iso(start), Iso(end);
    TotalAdjustmentsAppend(adjustments, a, employees[i].id, Bonus, lo, hi);
    TotalAdjustmentsAppend(adjustments, a, employees[i].id, Deduction, lo, hi);
  }

  /** The report depends only on each roster employee's expected row. */
  lemma SameRowsSameReport(employees: seq<Employee>, work1: seq<WorkEntry>, adjustments1: seq<Adjustment>,
                           work2: seq<WorkEntry>, adjustments2: seq<Adjustment>, start: CalendarDate, end: CalendarDate)
    requires DateLe(start, end)
    requires forall i :: 0 <= i < |employees| ==>
               ExpectedRow(employees[i], work1, adjustments1, Iso(start), Iso(end)) == ExpectedRow(employees[i], work2, adjustments2, Iso(start), Iso(end))
    ensures CalculatePayroll(employees, work1, adjustments1, start, end) == CalculatePayroll(employees, work2, adjustments2, start, end)
  {
    if |employees| > 0 {
      var lo, hi := Iso(start), Iso(end);
      JoinedRowsExpected(employees, work1, adjustments1, lo, hi);
      JoinedRowsExpected(employees, work2, adjustments2, lo, hi);
      var s1, s2 := PeriodSums(work1, adjustments1, lo, hi), PeriodSums(work2, adjustments2, lo, hi);
      assert seq(|employees|, i requires 0 <= i < |employees| => JoinedRow(employees[i], s1))
          == seq(|employees|, i requires 0 <= i < |employees| => JoinedRow(employees[i], s2));
    }
  }

  // ---------------------------------------------------------------------------
  // The merges as written. The second and third merges join on `employee_id`,
  // the column brought in by the hours table, not on the roster's `id`. For an
  // employee without an hours row in the period that column is NaN, which
  // matches no bonus or deduction group, so `fillna(0)` zeroes both totals.
  // ---------------------------------------------------------------------------

  /** A roster row after the three merges as written: the bonus and deduction sums are found only through
      the hours row's `employee_id`, which exists only when the employee has an hours group. */
  function JoinedRowAsWritten(e: Employee, sums: Sums): PayrollRow
  {
    var joinKeyPresent := e.id in sums.hours;
    MakeRow(e, SumOrZero(sums.hours, e.id),
            if joinKeyPresent then SumOrZero(sums.bonuses, e.id) else 0.0,
            if joinKeyPresent then SumOrZero(sums.deductions, e.id) else 0.0)
  }

  /** Whether employee `id` has a work entry dated in `[lo, hi]`, and so a row in the hours frame. */
  predicate LoggedHours(work: seq<WorkEntry>, id: int, lo: string, hi: string)
  {
    exists k :: 0 <= k < |work| && WorkCounts(work[k], id, lo, hi)
  }

  /** What the merges as written report of employee `e`: the expected row when `e` logged hours in the
      period, and otherwise a row with every sum and both pays 0, whatever adjustments `e` has. */
  function ExpectedRowAsWritten(e: Employee, work: seq<WorkEntry>, adjustments: seq<Adjustment>, lo: string, hi: string): PayrollRow
  {
    if LoggedHours(work, e.id, lo, hi) then ExpectedRow(e, work, adjustments, lo, hi) else MakeRow(e, 0.0, 0.0, 0.0)
  }

  function ExpectedRowsAsWritten(employees: seq<Employee>, work: seq<WorkEntry>, adjustments: seq<Adjustment>,
                                 lo: string, hi: string): (rows: seq<PayrollRow>)
    ensures |rows| == |employees|
    ensures forall i :: 0 <= i < |employees| ==> rows[i] == ExpectedRowAsWritten(employees[i], work, adjustments, lo, hi)
  {
    seq(|employees|, i requires 0 <= i < |employees| => ExpectedRowAsWritten(employees[i], work, adjustments, lo, hi))
  }

  /** `calculate_payroll` exactly as the merges are written. */
  function CalculatePayrollAsWritten(employees: seq<Employee>, work: seq<WorkEntry>, adjustments: seq<Adjustment>,
                                     start: CalendarDate, end: CalendarDate): (report: seq<PayrollRow>)
    requires DateLe(start, end)
    ensures |report| == |employees|
    ensures SortedBy(report, NameOf)
    ensures multiset(report) == multiset(ExpectedRowsAsWritten(employees, work, adjustments, Iso(start), Iso(end)))
  {
    if |employees| == 0 then []
    else
      var lo, hi := Iso(start), Iso(end);
      var sums := PeriodSums(work, adjustments, lo, hi);
      var rows := seq(|employees|, i requires 0 <= i < |employees| => JoinedRowAsWritten(employees[i], sums));
      JoinedRowsAsWrittenExpected(employees, work, adjustments, lo, hi);
      assert rows == ExpectedRowsAsWritten(employees, work, adjustments, lo, hi);
      SortBy(rows, NameOf)
  }

  lemma JoinedRowsAsWrittenExpected(employees: seq<Employee>, work: seq<WorkEntry>, adjustments: seq<Adjustment>,
                                    lo: string, hi: string)
    ensures forall i :: 0 <= i < |employees| ==>
              JoinedRowAsWritten(employees[i], PeriodSums(work, adjustments, lo, hi))
              == ExpectedRowAsWritten(employees[i], work, adjustments, lo, hi)
  {
    forall i | 0 <= i < |employees|
      ensures JoinedRowAsWritten(employees[i], PeriodSums(work, adjustments, lo, hi))
              == ExpectedRowAsWritten(employees[i], work, adjustments, lo, hi)
    {
      var id := employees[i].id;
      HoursGroupExists(work, id, lo, hi);
      HoursQuerySum(work, id, lo, hi);
      AdjustmentQuerySum(adjustments, id, Bonus, lo, hi);
      AdjustmentQuerySum(adjustments, id, Deduction, lo, hi);
    }
  }

  /** As written, an employee who logged hours in the period is reported correctly, whoever else did not. */
  lemma AsWrittenKeepsLoggedEmployees(employees: seq<Employee>, work: seq<WorkEntry>, adjustments: seq<Adjustment>,
                                      start: CalendarDate, end: CalendarDate, i: int, k: int)
    requires DateLe(start, end) && 0 <= i < |employees|
    requires 0 <= k < |work| && WorkCounts(work[k], employees[i].id, Iso(start), Iso(end))
    ensures ExpectedRow(employees[i], work, adjustments, Iso(start), Iso(end))
            in CalculatePayrollAsWritten(employees, work, adjustments, start, end)
  {
    var expected := ExpectedRowsAsWritten(employees, work, adjustments, Iso(start), Iso(end));
    assert expected[i] in multiset(expected);
  }

  /** As written, an employee who logged no hours in the period is reported with bonus and deduction 0,
      whatever adjustments the employee has in the period. */
  lemma AsWrittenDropsAdjustmentsWithoutHours(employees: seq<Employee>, work: seq<WorkEntry>, adjustments: seq<Adjustment>,
                                              start: CalendarDate, end: CalendarDate, i: int)
    requires DateLe(start, end) && 0 <= i < |employees|
    requires forall k :: 0 <= k < |work| ==> !WorkCounts(work[k], employees[i].id, Iso(start), Iso(end))
    ensures PayrollRow(employees[i].fullName, employees[i].hourlyRate, 0.0, 0.0, 0.0, 0.0, 0.0)
            in CalculatePayrollAsWritten(employees, work, adjustments, start, end)
  {
    var lo, hi := Iso(start), Iso(end);
    var sums := PeriodSums(work, adjustments, lo, hi);
    var rows := seq(|employees|, j requires 0 <= j < |employees| => JoinedRowAsWritten(employees[j], sums));
    HoursGroupExists(work, employees[i].id, lo, hi);
    assert rows[i] in multiset(rows);
  }

  /** When every roster employee has an hours entry in the period, the merges as written agree with the
      corrected report. */
  lemma AsWrittenAgreesWhenAllLoggedHours(employees: seq<Employee>, work: seq<WorkEntry>, adjustments: seq<Adjustment>,
                                          start: CalendarDate, end: CalendarDate)
    requires DateLe(start, end)
    requires forall i :: 0 <= i < |employees| ==>
               exists k :: 0 <= k < |work| && WorkCounts(work[k], employees[i].id, Iso(start), Iso(end))
    ensures CalculatePayrollAsWritten(employees, work, adjustments, start, end) == CalculatePayroll(employees, work, adjustments, start, end)
  {
    if |employees| > 0 {
      var lo, hi := Iso(start), Iso(end);
      var sums := PeriodSums(work, adjustments, lo, hi);
      forall i | 0 <= i < |employees| ensures JoinedRowAsWritten(employees[i], sums) == JoinedRow(employees[i], sums) {
        HoursGroupExists(work, employees[i].id, lo, hi);
      }
      assert seq(|employees|, i requires 0 <= i < |employees| => JoinedRowAsWritten(employees[i], sums))
          == seq(|employees|, i requires 0 <= i < |employees| => JoinedRow(employees[i], sums));
    }
  }

  /** The input that shows the discrepancy: employee `a` has only a bonus on the single day of the period,
      employee `b` logged hours that day (so the hours frame is not empty). As written `a` is paid 0;
      corrected `a` is paid the bonus, so the two reports differ. */
  lemma BonusLostWithoutHours(a: Employee, b: Employee, day: CalendarDate, hours: real, amount: real)
    requires a.id != b.id && a.fullName != b.fullName && amount != 0.0
    ensures var employees := [a, b];
            var work := [WorkEntry(1, b.id, Iso(day), hours, "")];
            var adjustments := [Adjustment(1, a.id, Iso(day), Bonus, amount, "")];
            var asWritten := CalculatePayrollAsWritten(employees, work, adjustments, day, day);
            var corrected := CalculatePayroll(employees, work, adjustments, day, day);
            && PayrollRow(a.fullName, a.hourlyRate, 0.0, 0.0, 0.0, 0.0, 0.0) in asWritten
            && PayrollRow(a.fullName, a.hourlyRate, 0.0, 0.0, amount, 0.0, amount) in corrected
            && asWritten != corrected
  {
    var employees := [a, b];
    var work := [WorkEntry(1, b.id, Iso(day), hours, "")];
    var adjustments := [Adjustment(1, a.id, Iso(day), Bonus, amount, "")];
    AsWrittenDropsAdjustmentsWithoutHours(employees, work, adjustments, day, day, 0);
    BonusPaidWhenCorrected(employees, work, adjustments, day, amount);
    BonusMissingAsWritten(a, b, work, adjustments, day, amount);
    assert PayrollRow(a.fullName, a.hourlyRate, 0.0, 0.0, amount, 0.0, amount) in CalculatePayroll(employees, work, adjustments, day, day);
  }

  lemma BonusPaidWhenCorrected(employees: seq<Employee>, work: seq<WorkEntry>, adjustments: seq<Adjustment>,
                               day: CalendarDate, amount: real)
    requires |employees| > 0 && |work| == 1 && work[0].employeeId != employees[0].id
    requires adjustments == [Adjustment(1, employees[0].id, Iso(day), Bonus, amount, "")]
    ensures PayrollRow(employees[0].fullName, employees[0].hourlyRate, 0.0, 0.0, amount, 0.0, amount)
            in CalculatePayroll(employees, work, adjustments, day, day)
  {
    var id, lo := employees[0].id, Iso(day);
    LexLeRefl(lo);
    assert TotalHours(work[1..], id, lo, lo) == 0.0;
    assert TotalHours(work, id, lo, lo) == 0.0;
    assert TotalAdjustments(adjustments[1..], id, Bonus, lo, lo) == 0.0;
    assert TotalAdjustments(adjustments, id, Bonus, lo, lo) == amount;
    assert TotalAdjustments(adjustments[1..], id, Deduction, lo, lo) == 0.0;
    assert TotalAdjustments(adjustments, id, Deduction, lo, lo) == 0.0;
    EveryEmployeeReported(employees, work, adjustments, day, day, 0);
  }

  lemma BonusMissingAsWritten(a: Employee, b: Employee, work: seq<WorkEntry>, adjustments: seq<Adjustment>,
                              day: CalendarDate, amount: real)
    requires a.id != b.id && a.fullName != b.fullName && amount != 0.0
    requires |work| == 1 && work[0].employeeId == b.id
    ensures PayrollRow(a.fullName, a.hourlyRate, 0.0, 0.0, amount, 0.0, amount)
            !in CalculatePayrollAsWritten([a, b], work, adjustments, day, day)
  {
    var lo := Iso(day);
    var sums := PeriodSums(work, adjustments, lo, lo);
    var rows := seq(2, i requires 0 <= i < 2 => JoinedRowAsWritten([a, b][i], sums));
    HoursGroupExists(work, a.id, lo, lo);
    assert !WorkCounts(work[0], a.id, lo, lo);
    assert a.id !in sums.hours;
    var paid := PayrollRow(a.fullName, a.hourlyRate, 0.0, 0.0, amount, 0.0, amount);
    assert rows[0].bonusTotal == 0.0 && rows[1].fullName == b.fullName;
    assert rows == [rows[0], rows[1]];
    assert paid !in multiset(rows);
  }
}
