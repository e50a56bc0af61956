# Payroll core of the employee and payroll manager, in Dafny

The application keeps three tables: `employees`, `work_hours` and
`adjustments`. Adjustments are bonuses and deductions. For a pay period it
computes one payroll row per employee. A row holds the hours worked, the
bonus and deduction totals, gross pay (hours × current hourly rate) and net
pay (gross + bonuses − deductions). Rows are sorted by full name. The
application also lists the period's work entries and adjustments, ordered by
date.

This project models that core as Dafny code and proves properties of it:

- `records.dfy` (module `Records`): the record store. `Store` is a class
  holding the three tables as sequences plus one AUTOINCREMENT counter per
  table. `AddEmployee`, `AddWorkHours` and `AddAdjustment` each append one
  row with a fresh id.
- `aggregation.dfy` (module `Aggregation`): the three `GROUP BY employee_id`
  sum queries (`HoursPairs`/`AmountPairs` followed by `GroupSum`), and the
  left join with `fillna(0)` (`SumOrZero`). `TotalHours` and
  `TotalAdjustments` are the per-employee sums written directly over the
  tables. They are the reference the queries are proved against.
- `payroll.dfy` (module `Payroll`): `calculate_payroll` in two versions.
  `CalculatePayrollAsWritten` is the source's own behaviour: it reproduces
  the merges exactly as written, joining the bonus and deduction sums on the
  hours frame's `employee_id` (see Findings). `CalculatePayroll` is the
  corrected report, which joins those sums on the roster's `id`.
  `ExpectedRow` is the row the corrected report holds for each employee, and
  `ExpectedRowAsWritten` the row the source's merges produce.
- `queries.dfy` (module `Queries`): `load_work_hours` and `load_adjustments`.
  Each is an inner join to the employee's name, filtered with `BETWEEN` and
  ordered by date.
- `dates.dfy` (module `Dates`): calendar dates. The application stores dates
  as `date.isoformat()` text and compares that text in SQL. `Iso` is the
  formatting, and `IsoOrder` proves that text order on ISO dates is
  chronological order.
- `collation.dfy` (module `Collation`): the text order shared by Python
  `str` comparison and SQLite's BINARY collation (`LexLe`), and a sort by a
  text key (`SortBy`). The sort is specified only by sortedness and
  permutation.

Choices made in the model:

- Amounts, hours and rates are exact `real`s. The source uses SQLite `REAL`.
- Dates are passed in as `CalendarDate` and stored and compared as ISO text,
  as the source does.
- The tables are a snapshot passed as sequences to the read-only operations.
- `adjustment_type` is free text. Only the exact texts `bonus` and
  `deduction` are summed.
- The employee id of an entry is not checked against the roster, since the
  source's foreign keys are not enforced. Entries with an unknown id are
  stored. The payroll and the detail reads ignore them.
- The payroll requires `start <= end`. The page checks this before calling
  (app.py:291-293). `calculate_payroll` itself raises no error.
- Ties among equal full names come out in no promised order, since
  `sort_values` promises none.

## Model

| member | source | states |
|---|---|---|
| `Records.Store.constructor` | app.py:15-54 | the three tables start empty and each AUTOINCREMENT counter starts at 1 |
| `Records.Store.AddEmployee` | app.py:57-67 | appends exactly one employee row, with the ISO text of the start date and an id above every existing employee id; the other tables and counters are unchanged; ids stay unique and increasing |
| `Records.Store.AddWorkHours` | app.py:70-80 | appends exactly one work entry, with the ISO text of the date and an id above every existing entry id; employees and adjustments are unchanged |
| `Records.Store.AddAdjustment` | app.py:83-101 | appends exactly one adjustment, with the ISO text of the date and an id above every existing adjustment id; employees and work entries are unchanged |
| `Aggregation.GroupSum` | app.py:155-158 | `GROUP BY employee_id` with `SUM`: exactly one group per id that has rows, holding the sum of that id's values |
| `Aggregation.LeftJoinSum` | app.py:188-194 | looking up a grouped sum and filling a missing one with 0 gives the id's full sum; ids without rows get 0 |
| `Aggregation.HoursQuerySum` | app.py:153-162 | the grouped hours query, read back through the left join, gives each employee the hours of that employee's entries dated inclusively within the period |
| `Aggregation.AdjustmentQuerySum` | app.py:164-186 | the grouped query for one adjustment type, read back through the left join, gives each employee the amounts of that employee's adjustments of exactly that type dated within the period |
| `Aggregation.HoursGroupExists` | app.py:153-162 | an employee has a group in the hours query if and only if one of the employee's work entries is dated in the period |
| `Aggregation.TotalHoursAppend` | app.py:153-162 | one more work entry raises only its own employee's hours total, by its hours, and only when its date is in the period |
| `Aggregation.TotalAdjustmentsAppend` | app.py:164-186 | one more adjustment raises only its own employee's total of its own type, by its amount, and only when its date is in the period |
| `Aggregation.TotalHoursSplit` | app.py:155-157 | the inclusive range is additive: split at a gap in the dates, the hours total is the sum of the totals of the two sub-ranges |
| `Aggregation.TotalAdjustmentsSplit` | app.py:166-184 | the same split for the total of each adjustment type, bonuses and deductions alike |
| `Aggregation.SplitPeriodAtDay` | app.py:153-186 | for stored ISO dates, splitting a period at a day `d` into start to `d` and the day after `d` to end splits the hours total and every adjustment total into the totals of the two parts |
| `Payroll.CalculatePayroll` | app.py:145-210 | the corrected report, with the bonus and deduction sums joined on the roster `id` rather than on `employee_id` as app.py:189-190 does (the source's own behaviour is `Payroll.CalculatePayrollAsWritten`): exactly one row per roster employee (so an empty roster gives an empty report); the rows are sorted ascending by full name; the rows, as a multiset, are the employees' expected rows with the seven report columns |
| `Payroll.JoinedRowsExpected` | app.py:188-198 | the roster row joined to the three grouped sums, with missing sums filled with 0, equals the expected row built from the direct sums |
| `Payroll.EveryEmployeeReported` | app.py:188-194 | every roster employee's expected row is in the report, including employees with no activity |
| `Payroll.EveryRowFromRoster` | app.py:195-198 | every report row is the expected row of some roster employee, and `gross_pay = total_hours * hourly_rate` and `net_pay = gross_pay + bonus_total - deduction_total` hold on it, with the employee's current rate |
| `Payroll.IdleEmployeeReported` | app.py:188-194 | an employee with no counted work entry, bonus or deduction in the period is reported with hours, gross, bonus, deduction and net all 0 |
| `Payroll.UncountedWorkIgnored` | app.py:153-162 | a work entry whose employee is not in the roster, or whose date is outside the period, leaves the report unchanged |
| `Payroll.UncountedAdjustmentIgnored` | app.py:164-186 | an adjustment whose employee is not in the roster, whose date is outside the period, or whose type is neither `bonus` nor `deduction`, leaves the report unchanged |
| `Payroll.AdjustmentCountsOnce` | app.py:164-186 | a counted adjustment raises its employee's bonus total by its amount if it is a `bonus`, or the deduction total if it is a `deduction`, never both; the hours total is unchanged |
| `Payroll.CalculatePayrollAsWritten` | app.py:145-210 | the source's own report: one row per roster employee, sorted by full name; as a multiset the rows are, for each employee who logged hours in the period, the expected row, and for every other employee a row with all sums and both pays 0 |
| `Payroll.JoinedRowsAsWrittenExpected` | app.py:188-194 | a roster row after the merges as written, with missing sums filled with 0, is the expected row when the employee has an hours row, and all zeros otherwise |
| `Payroll.AsWrittenKeepsLoggedEmployees` | app.py:188-194 | as written, an employee with a work entry in the period gets the expected row, even when other employees have none |
| `Payroll.AsWrittenDropsAdjustmentsWithoutHours` | app.py:189-193 | as written, an employee with no work entry in the period is reported with bonus and deduction 0, so net pay 0, whatever adjustments the employee has |
| `Payroll.AsWrittenAgreesWhenAllLoggedHours` | app.py:188-194 | when every roster employee has a work entry in the period, the report as written equals the corrected report |
| `Payroll.BonusLostWithoutHours` | app.py:189-190 | with one employee holding only a bonus and another who logged hours on the single day of the period, the first is paid 0 as written and the bonus when corrected, so the two reports differ |
| `Queries.LoadWorkHours` | app.py:112-125 | the detail rows are ordered by work date, and as a multiset they are the join of the in-range entries with their employees |
| `Queries.LoadWorkHoursRows` | app.py:116-120 | a row is listed if and only if it pairs a work entry dated in the period with an employee whose id the entry names; entries naming no roster employee are hidden |
| `Queries.LoadAdjustments` | app.py:128-142 | the detail rows are ordered by adjustment date, and as a multiset they are the join of the in-range adjustments with their employees |
| `Queries.LoadAdjustmentsRows` | app.py:132-137 | a row is listed if and only if it pairs an adjustment of any type dated in the period with an employee whose id it names; adjustments naming no roster employee are hidden |
| `Dates.IsoOrder` | app.py:119-124 | for valid dates, comparing `isoformat()` texts gives the chronological order, and equal texts mean equal dates |
| `Dates.BetweenIsChronological` | app.py:155-161 | `BETWEEN` on the ISO texts selects exactly the dates from start to end, both inclusive |
| `Dates.DigitsOrder` | app.py:65 | zero-padded numbers of one width compare as text exactly as they compare as numbers |
| `Collation.SortBy` | app.py:210 | the result is a permutation of the input, sorted ascending by the key in code point order |

## Left out

- `load_employees` (app.py:104-109) selects the whole `employees` table. Here that is the `Store.employees` field.
- The Streamlit page (app.py:213-339) is presentation. This covers the forms and their checks, the lookup from name to id, the `$ {:,.2f}` total and the "no data" messages.
- The SQLite connection, the table creation (app.py:11-54) and the pandas `read_sql_query` plumbing are foreign I/O. The tables are in-memory sequences. The durability of writes is not modelled.
- Floating-point `REAL` arithmetic is not modelled. Sums are exact `real`s.
- The type of `pd.DataFrame()` is not modelled. For an empty roster the source returns a frame with no columns (app.py:150-151). The model returns the empty sequence.
- pandas column types are not modelled. This includes the float conversion of a key column that holds NaN. Of the NaN key, the model keeps only that it matches no group.
- `Payroll.CalculatePayrollAsWritten`: a period with no work entry at all yields an empty hours frame. How pandas then types the merge key is not modelled; the model treats the key as matching no group, as it does for NaN.
- Nullable `notes` and `description` are plain text. The form always passes a string.
- Referential integrity is not checked. The foreign keys are not enforced (no `PRAGMA foreign_keys`), so no error path exists in the source.
- `Payroll.CalculatePayroll`: tie order among equal full names is not stated. `sort_values` promises none, so only sortedness and the multiset of rows are stated.
- `Queries.LoadWorkHours`: tie order among equal dates is not stated, because SQL `ORDER BY work_date` leaves it open.
- `Queries.LoadAdjustments`: tie order among equal dates is not stated, because SQL `ORDER BY adjustment_date` leaves it open.

## Findings

| source | as written | input that shows it | evidently intended | confidence | as-written member | corrected member |
|---|---|---|---|---|---|---|
| app.py:189-190 | the bonus and deduction merges join on `employee_id`. That column comes from the hours frame and is NaN for an employee with no work entry in the period, so both totals become 0 after `fillna(0)` | a one-day period; employee A has a bonus of 50 that day and no hours; employee B logged hours that day: A is reported with `bonus_total` 0 and `net_pay` 0 | join bonuses and deductions on the roster's `id`, so that A gets `bonus_total` 50 and `net_pay` 50 | high; not executed | `Payroll.CalculatePayrollAsWritten` (shown by `Payroll.BonusLostWithoutHours`) | `Payroll.CalculatePayroll` |
