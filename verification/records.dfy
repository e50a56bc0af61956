/**
 * The record store: the three tables `employees`, `work_hours` and
 * `adjustments`, each with SQLite's AUTOINCREMENT counter, and the three
 * `add_*` operations that insert one row apiece.
 */
module Records {
  import opened Dates

  /** A row of `employees`; `startDate` holds the ISO text that was stored. */
  datatype Employee = Employee(id: int, fullName: string, roleTitle: string, hourlyRate: real, startDate: string)

  /** A row of `work_hours`. */
  datatype WorkEntry = WorkEntry(id: int, employeeId: int, workDate: string, hours: real, notes: string)

  /** A row of `adjustments`; the type is free text (the form offers `bonus` and `deduction`). */
  datatype Adjustment = Adjustment(id: int, employeeId: int, adjustmentDate: string, adjustmentType: string,
                                   amount: real, description: string)

  /** Text produced by `date.isoformat()` for some date. */
  ghost predicate IsIsoDate(s: string)
  {
    exists d :: ValidDate(d) && Iso(d) == s
  }

  class Store {
    var employees: seq<Employee>
    var workHours: seq<WorkEntry>
    var adjustments: seq<Adjustment>
    // The `sqlite_sequence` counters: the id the next insert into each table receives.
    var nextEmployeeId: int
    var nextWorkHoursId: int
    var nextAdjustmentId: int

    /** Ids are positive, strictly increasing in insertion order and below their table's counter;
        every stored date is ISO text. */
    ghost predicate Valid()
      reads this
    {
      && 1 <= nextEmployeeId && 1 <= nextWorkHoursId && 1 <= nextAdjustmentId
      && (forall i :: 0 <= i < |employees| ==> 1 <= employees[i].id < nextEmployeeId)
      && (forall i, j :: 0 <= i < j < |employees| ==> employees[i].id < employees[j].id)
      && (forall i :: 0 <= i < |employees| ==> IsIsoDate(employees[i].startDate))
      && (forall i :: 0 <= i < |workHours| ==> 1 <= workHours[i].id < nextWorkHoursId)
      && (forall i, j :: 0 <= i < j < |workHours| ==> workHours[i].id < workHours[j].id)
      && (forall i :: 0 <= i < |workHours| ==> IsIsoDate(workHours[i].workDate))
      && (forall i :: 0 <= i < |adjustments| ==> 1 <= adjustments[i].id < nextAdjustmentId)
      && (forall i, j :: 0 <= i < j < |adjustments| ==> adjustments[i].id < adjustments[j].id)
      && (forall i :: 0 <= i < |adjustments| ==> IsIsoDate(adjustments[i].adjustmentDate))
    }

    /** Freshly created tables: empty, and the first AUTOINCREMENT id is 1. */
    constructor ()
      ensures Valid()
      ensures employees == [] && workHours == [] && adjustments == []
      ensures nextEmployeeId == 1 && nextWorkHoursId == 1 && nextAdjustmentId == 1
    {
      employees, workHours, adjustments := [], [], [];
      nextEmployeeId, nextWorkHoursId, nextAdjustmentId := 1, 1, 1;
    }

    /** `INSERT INTO employees`: one new row, with an id above every existing one. */
    method AddEmployee(fullName: string, roleTitle: string, hourlyRate: real, startDate: CalendarDate)
      returns (id: int)
      requires Valid() && ValidDate(startDate)
      modifies this
      ensures Valid()
      ensures id == old(nextEmployeeId) && nextEmployeeId == id + 1
      ensures forall i :: 0 <= i < |old(employees)| ==> old(employees)[i].id < id
      ensures employees == old(employees) + [Employee(id, fullName, roleTitle, hourlyRate, Iso(startDate))]
      ensures workHours == old(workHours) && adjustments == old(adjustments)
      ensures nextWorkHoursId == old(nextWorkHoursId) && nextAdjustmentId == old(nextAdjustmentId)
    {
      id := nextEmployeeId;
      employees := employees + [Employee(id, fullName, roleTitle, hourlyRate, Iso(startDate))];
      nextEmployeeId := nextEmployeeId + 1;
    }

    /** `INSERT INTO work_hours`: one new row, with an id above every existing one. The employee id is
        not checked, as SQLite does not enforce the foreign key without `PRAGMA foreign_keys`. */
    method AddWorkHours(employeeId: int, workDate: CalendarDate, hours: real, notes: string)
      returns (id: int)
      requires Valid() && ValidDate(workDate)
      modifies this
      ensures Valid()
      ensures id == old(nextWorkHoursId) && nextWorkHoursId == id + 1
      ensures forall i :: 0 <= i < |old(workHours)| ==> old(workHours)[i].id < id
      ensures workHours == old(workHours) + [WorkEntry(id, employeeId, Iso(workDate), hours, notes)]
      ensures employees == old(employees) && adjustments == old(adjustments)
      ensures nextEmployeeId == old(nextEmployeeId) && nextAdjustmentId == old(nextAdjustmentId)
    {
      id := nextWorkHoursId;
      workHours := workHours + [WorkEntry(id, employeeId, Iso(workDate), hours, notes)];
      nextWorkHoursId := nextWorkHoursId + 1;
    }

    /** `INSERT INTO adjustments`: one new row, with an id above every existing one. */
    method AddAdjustment(employeeId: int, adjustmentDate: CalendarDate, adjustmentType: string, amount: real,
                         description: string)
      returns (id: int)
      requires Valid() && ValidDate(adjustmentDate)
      modifies this
      ensures Valid()
      ensures id == old(nextAdjustmentId) && nextAdjustmentId == id + 1
      ensures forall i :: 0 <= i < |old(adjustments)| ==> old(adjustments)[i].id < id
      ensures adjustments == old(adjustments)
                             + [Adjustment(id, employeeId, Iso(adjustmentDate), adjustmentType, amount, description)]
      ensures employees == old(employees) && workHours == old(workHours)
      ensures nextEmployeeId == old(nextEmployeeId) && nextWorkHoursId == old(nextWorkHoursId)
    {
      id := nextAdjustmentId;
      adjustments := adjustments
                     + [Adjustment(id, employeeId, Iso(adjustmentDate), adjustmentType, amount, description)];
      nextAdjustmentId := nextAdjustmentId + 1;
    }
  }
}
