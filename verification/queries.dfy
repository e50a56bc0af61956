/**
 * The detail reads of a pay period, `load_work_hours` and `load_adjustments`:
 * the entries dated in the period, each inner-joined to its employee's name,
 * ordered by date.
 */
module Queries {
  import opened Collation
  import opened Dates
  import opened Records

  /** A row of `load_work_hours`: `id, full_name, employee_id, work_date, hours, notes`. */
  datatype WorkHoursRow = WorkHoursRow(id: int, fullName: string, employeeId: int, workDate: string, hours: real, notes: string)

  /** A row of `load_adjustments`: `id, full_name, employee_id, adjustment_date, adjustment_type, amount, description`. */
  datatype AdjustmentRow = AdjustmentRow(id: int, fullName: string, employeeId: int, adjustmentDate: string,
                                         adjustmentType: string, amount: real, description: string)

  function WorkRow(w: WorkEntry, e: Employee): WorkHoursRow
  {
    WorkHoursRow(w.id, e.fullName, w.employeeId, w.workDate, w.hours, w.notes)
  }

  function AdjRow(a: Adjustment, e: Employee): AdjustmentRow
  {
    AdjustmentRow(a.id, e.fullName, a.employeeId, a.adjustmentDate, a.adjustmentType, a.amount, a.description)
  }

  function WorkDateOf(r: WorkHoursRow): string
  {
    r.workDate
  }

  function AdjustmentDateOf(r: AdjustmentRow): string
  {
    r.adjustmentDate
  }

  /** `JOIN employees ON employees.id = work_hours.employee_id` for one entry: a row per matching employee. */
  function WorkMatches(w: WorkEntry, employees: seq<Employee>): seq<WorkHoursRow>
  {
    if |employees| == 0 then []
    else (if employees[0].id == w.employeeId then [WorkRow(w, employees[0])] else []) + WorkMatches(w, employees[1..])
  }

  /** The join and `WHERE work_date BETWEEN lo AND hi`, before ordering. */
  function JoinedWork(employees: seq<Employee>, work: seq<WorkEntry>, lo: string, hi: string): seq<WorkHoursRow>
  {
    if |work| == 0 then []
    else (if Between(work[0].workDate, lo, hi) then WorkMatches(work[0], employees) else []) + JoinedWork(employees, work[1..], lo, hi)
  }

  /** `load_work_hours(start, end)`. */
  function LoadWorkHours(employees: seq<Employee>, work: seq<WorkEntry>, start: CalendarDate, end: CalendarDate)
    : (rows: seq<WorkHoursRow>)
    ensures SortedBy(rows, WorkDateOf)
    ensures multiset(rows) == multiset(JoinedWork(employees, work, Iso(start), Iso(end)))
  {
    SortBy(JoinedWork(employees, work, Iso(start), Iso(end)), WorkDateOf)
  }

  function AdjustmentMatches(a: Adjustment, employees: seq<Employee>): seq<AdjustmentRow>
  {
    if |employees| == 0 then []
    else (if employees[0].id == a.employeeId then [AdjRow(a, employees[0])] else []) + AdjustmentMatches(a, employees[1..])
  }

  function JoinedAdjustments(employees: seq<Employee>, adjustments: seq<Adjustment>, lo: string, hi: string): seq<AdjustmentRow>
  {
    if |adjustments| == 0 then []
    else
      (if Between(adjustments[0].adjustmentDate, lo, hi) then AdjustmentMatches(adjustments[0], employees) else [])
      + JoinedAdjustments(employees, adjustments[1..], lo, hi)
  }

  /** `load_adjustments(start, end)`. */
  function LoadAdjustments(employees: seq<Employee>, adjustments: seq<Adjustment>, start: CalendarDate, end: CalendarDate)
    : (rows: seq<AdjustmentRow>)
    ensures SortedBy(rows, AdjustmentDateOf)
    ensures multiset(rows) == multiset(JoinedAdjustments(employees, adjustments, Iso(start), Iso(end)))
  {
    SortBy(JoinedAdjustments(employees, adjustments, Iso(start), Iso(end)), AdjustmentDateOf)
  }

  lemma {:induction false} WorkMatchesRows(w: WorkEntry, employees: seq<Employee>, r: WorkHoursRow)
    ensures r in WorkMatches(w, employees) <==> exists j :: 0 <= j < |employees| && employees[j].id == w.employeeId && r == WorkRow(w, employees[j])
  {
    if |employees| > 0 {
      WorkMatchesRows(w, employees[1..], r);
      var head := if employees[0].id == w.employeeId then [WorkRow(w, employees[0])] else [];
      assert WorkMatches(w, employees) == head + WorkMatches(w, employees[1..]);
      assert forall j :: 0 < j < |employees| ==> employees[1..][j - 1] == employees[j];
      if exists j :: 0 <= j < |employees| && employees[j].id == w.employeeId && r == WorkRow(w, employees[j]) {
        var j :| 0 <= j < |employees| && employees[j].id == w.employeeId && r == WorkRow(w, employees[j]);
        if j > 0 {
          assert employees[1..][j - 1] == employees[j];
        }
      }
    }
  }

  lemma {:induction false} JoinedWorkRows(employees: seq<Employee>, work: seq<WorkEntry>, lo: string, hi: string, r: WorkHoursRow)
    ensures r in JoinedWork(employees, work, lo, hi) <==>
            exists i, j :: 0 <= i < |work| && 0 <= j < |employees| && Between(work[i].workDate, lo, hi)
                           && employees[j].id == work[i].employeeId && r == WorkRow(work[i], employees[j])
  {
    if |work| > 0 {
      JoinedWorkRows(employees, work[1..], lo, hi, r);
      WorkMatchesRows(work[0], employees, r);
      if exists i, j :: 0 <= i < |work| && 0 <= j < |employees| && Between(work[i].workDate, lo, hi)
                        && employees[j].id == work[i].employeeId && r == WorkRow(work[i], employees[j]) {
        var i, j :| 0 <= i < |work| && 0 <= j < |employees| && Between(work[i].workDate, lo, hi)
                    && employees[j].id == work[i].employeeId && r == WorkRow(work[i], employees[j]);
        if i > 0 {
          assert work[1..][i - 1] == work[i];
        }
      }
      if exists i, j :: 0 <= i < |work[1..]| && 0 <= j < |employees| && Between(work[1..][i].workDate, lo, hi)
                        && employees[j].id == work[1..][i].employeeId && r == WorkRow(work[1..][i], employees[j]) {
        var i, j :| 0 <= i < |work[1..]| && 0 <= j < |employees| && Between(work[1..][i].workDate, lo, hi)
                    && employees[j].id == work[1..][i].employeeId && r == WorkRow(work[1..][i], employees[j]);
        assert work[i + 1] == work[1..][i];
      }
    }
  }

  /** A detail row appears exactly for each work entry dated in the period and each employee whose id it
      names: an entry naming no roster employee is hidden. */
  lemma LoadWorkHoursRows(employees: seq<Employee>, work: seq<WorkEntry>, start: CalendarDate, end: CalendarDate, r: WorkHoursRow)
    ensures r in LoadWorkHours(employees, work, start, end) <==>
            exists i, j :: 0 <= i < |work| && 0 <= j < |employees| && Between(work[i].workDate, Iso(start), Iso(end))
                           && employees[j].id == work[i].employeeId && r == WorkRow(work[i], employees[j])
  {
    var rows := LoadWorkHours(employees, work, start, end);
    assert r in rows <==> r in multiset(rows);
    JoinedWorkRows(employees, work, Iso(start), Iso(end), r);
  }

  lemma {:induction false} AdjustmentMatchesRows(a: Adjustment, employees: seq<Employee>, r: AdjustmentRow)
    ensures r in AdjustmentMatches(a, employees) <==> exists j :: 0 <= j < |employees| && employees[j].id == a.employeeId && r == AdjRow(a, employees[j])
  {
    if |employees| > 0 {
      AdjustmentMatchesRows(a, employees[1..], r);
      var head := if employees[0].id == a.employeeId then [AdjRow(a, employees[0])] else [];
      assert AdjustmentMatches(a, employees) == head + AdjustmentMatches(a, employees[1..]);
      assert forall j :: 0 < j < |employees| ==> employees[1..][j - 1] == employees[j];
      if exists j :: 0 <= j < |employees| && employees[j].id == a.employeeId && r == AdjRow(a, employees[j]) {
        var j :| 0 <= j < |employees| && employees[j].id == a.employeeId && r == AdjRow(a, employees[j]);
        if j > 0 {
          assert employees[1..][j - 1] == employees[j];
        }
      }
    }
  }

  lemma {:induction false} JoinedAdjustmentsRows(employees: seq<Employee>, adjustments: seq<Adjustment>, lo: string, hi: string,
                                                 r: AdjustmentRow)
    ensures r in JoinedAdjustments(employees, adjustments, lo, hi) <==>
            exists i, j :: 0 <= i < |adjustments| && 0 <= j < |employees| && Between(adjustments[i].adjustmentDate, lo, hi)
                           && employees[j].id == adjustments[i].employeeId && r == AdjRow(adjustments[i], employees[j])
  {
    if |adjustments| > 0 {
      JoinedAdjustmentsRows(employees, adjustments[1..], lo, hi, r);
      AdjustmentMatchesRows(adjustments[0], employees, r);
      if exists i, j :: 0 <= i < |adjustments| && 0 <= j < |employees| && Between(adjustments[i].adjustmentDate, lo, hi)
                        && employees[j].id == adjustments[i].employeeId && r == AdjRow(adjustments[i], employees[j]) {
        var i, j :| 0 <= i < |adjustments| && 0 <= j < |employees| && Between(adjustments[i].adjustmentDate, lo, hi)
                    && employees[j].id == adjustments[i].employeeId && r == AdjRow(adjustments[i], employees[j]);
        if i > 0 {
          assert adjustments[1..][i - 1] == adjustments[i];
        }
      }
      if exists i, j :: 0 <= i < |adjustments[1..]| && 0 <= j < |employees| && Between(adjustments[1..][i].adjustmentDate, lo, hi)
                        && employees[j].id == adjustments[1..][i].employeeId && r == AdjRow(adjustments[1..][i], employees[j]) {
        var i, j :| 0 <= i < |adjustments[1..]| && 0 <= j < |employees| && Between(adjustments[1..][i].adjustmentDate, lo, hi)
                    && employees[j].id == adjustments[1..][i].employeeId && r == AdjRow(adjustments[1..][i], employees[j]);
        assert adjustments[i + 1] == adjustments[1..][i];
      }
    }
  }

  /** A detail row appears exactly for each adjustment dated in the period (of any type) and each employee
      whose id it names: an adjustment naming no roster employee is hidden. */
  lemma LoadAdjustmentsRows(employees: seq<Employee>, adjustments: seq<Adjustment>, start: CalendarDate, end: CalendarDate,
                            r: AdjustmentRow)
    ensures r in LoadAdjustments(employees, adjustments, start, end) <==>
            exists i, j :: 0 <= i < |adjustments| && 0 <= j < |employees| && Between(adjustments[i].adjustmentDate, Iso(start), Iso(end))
                           && employees[j].id == adjustments[i].employeeId && r == AdjRow(adjustments[i], employees[j])
  {
    var rows := LoadAdjustments(employees, adjustments, start, end);
    assert r in rows <==> r in multiset(rows);
    JoinedAdjustmentsRows(employees, adjustments, Iso(start), Iso(end), r);
  }
}
