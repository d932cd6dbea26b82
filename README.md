# Employee roster manager, modelled in Dafny

This project models an in-memory employee roster. A **position** is a job grade
with an inclusive salary band `[minSalary, maxSalary]`. An **employee** holds one
position and a current salary. The **employee manager** owns the ordered list of
managed employees, and every change to that list goes through it:

- `addEmployee` rejects a duplicate, then a salary outside the band, and
  otherwise appends the employee.
- `removeEmployee` deletes the matching entry, or reports that it was not found.
- `updateEmployeeSalary` checks the new salary against the employee's current
  position.
- `updateEmployeePosition` checks the employee's *current* salary against the
  *new* position.
- `calculateTotalSalary` sums all salaries, and `getEmployees` returns the list.
- `isSalaryValidForPosition` is the band check that all of the above use.

The manager reports three errors: duplicate employee, employee not found and
invalid salary. Invalid salary carries a tag for where it was raised: on add, on
a salary update or on a position update. The manager gives each of these places
its own message. The manager checks everything before it changes anything, so a
rejected call leaves the list as it was.

Layout:

- `wrappers.dfy`: `Option`, `Outcome` and `Result`.
- `entities.dfy` (module `Entities`): `Position`, `Employee`, the error kinds,
  the band check and lemmas about the band.
- `roster.dfy` (module `Roster`): the list as a value. Each manager operation is
  a function from the list before to either the list after or an error. This
  module also holds the lemmas that state what each operation promises:
  - which error comes out, and when (both directions);
  - the exact new list, and that nothing else changes;
  - the new total salary;
  - that the invariant is kept. The invariant is that identifiers are unique
    and every salary lies within its position's band.
- `manager.dfy` (module `Manager`): the class `EmployeeManager`. Its field
  `employees: seq<Employee>` is updated in place. Each method is proved to
  return the outcome and leave the list that the matching `Roster` function
  gives, and to keep the invariant (`Valid()`). The linear search `IndexOf` and
  `CalculateTotalSalary` are loops with their invariants.
- `scenarios.dfy` (module `Scenarios`): the fixture of `EmployeeManagerTest`
  and its tests. Each test that drives the manager is a client method, and
  the outcomes it expects are proved from the manager's contracts alone.
  `testIsSalaryValidForPosition` is the lemma `SalaryBandExamples`.

The behaviour modelled is what the test class `EmployeeManagerTest` fixes
through its fixture and its assertions, and the table below cites those lines.

Employees are identified by their `id`. Duplicate detection, removal and both
updates all use this one rule. The tests only ever reuse the same object, so
identity by reference and identity by `id` agree on them.

Employees and positions are modelled as values. An update therefore replaces
the managed entry. `updateEmployeePosition` checks the salary of the *managed*
entry, not the salary of the caller's copy.

One observation about the tests: `testUpdateEmployeePositionValid` moves an
employee who already holds "Senior Developer" to that same position. The
scenario for it still shows that the position after the call is the one asked
for.

## Model

| member | source | states |
|---|---|---|
| `Manager.EmployeeManager.constructor` | src/test/java/edu/pucmm/EmployeeManagerTest.java:27 | A new manager holds no employees and satisfies the roster invariant. |
| `Manager.EmployeeManager.GetEmployees` | src/test/java/edu/pucmm/EmployeeManagerTest.java:42 | Returns the managed employees in insertion order. |
| `Manager.EmployeeManager.AddEmployee` | src/test/java/edu/pucmm/EmployeeManagerTest.java:36-43 | Returns the outcome and leaves the list that `Roster.Add` specifies: an error leaves the list unchanged, success appends. Keeps ids unique and salaries in band. |
| `Manager.EmployeeManager.RemoveEmployee` | src/test/java/edu/pucmm/EmployeeManagerTest.java:46-56 | Returns the outcome and leaves the list that `Roster.Remove` specifies: not-found leaves the list unchanged. Keeps the invariant. |
| `Manager.EmployeeManager.CalculateTotalSalary` | src/test/java/edu/pucmm/EmployeeManagerTest.java:59-67 | The returned value is the sum of the salaries of all managed employees, and 0 when there are none. |
| `Manager.EmployeeManager.UpdateEmployeeSalary` | src/test/java/edu/pucmm/EmployeeManagerTest.java:70-107 | Returns the outcome and leaves the list that `Roster.UpdateSalary` specifies. A rejected update leaves every salary as it was. Keeps the invariant. |
| `Manager.EmployeeManager.UpdateEmployeePosition` | src/test/java/edu/pucmm/EmployeeManagerTest.java:109-148 | Returns the outcome and leaves the list that `Roster.UpdatePosition` specifies. A rejected update leaves every position as it was. Keeps the invariant. |
| `Manager.IndexOf` | src/test/java/edu/pucmm/EmployeeManagerTest.java:55 | The linear search returns the first index holding the id, or none when no managed employee has it. |
| `Roster.Find` | src/test/java/edu/pucmm/EmployeeManagerTest.java:42 | The found index holds the id and no earlier index does. Nothing is found exactly when the id is not managed. |
| `Roster.Lookup` | src/test/java/edu/pucmm/EmployeeManagerTest.java:76 | An employee is returned exactly when the id is managed, and it is a managed employee with that id. |
| `Roster.TotalSalaryConcat` | src/test/java/edu/pucmm/EmployeeManagerTest.java:66 | The total of two lists joined together is the sum of their totals. |
| `Roster.AddOutcome` | src/test/java/edu/pucmm/EmployeeManagerTest.java:165-192 | Duplicate exactly when the id is already managed. Invalid salary (add site) exactly when the id is new and the salary is outside its position's band. Success exactly when neither holds. |
| `Roster.AddEffect` | src/test/java/edu/pucmm/EmployeeManagerTest.java:36-43 | On success the list grows by exactly one and keeps its old entries in order. The new employee is contained and found under its id, the id set gains that id, and the total rises by its salary. |
| `Roster.AddPreservesWellFormed` | src/test/java/edu/pucmm/EmployeeManagerTest.java:32 | A successful add keeps ids unique and every salary within its band. |
| `Roster.AddTwiceIsDuplicate` | src/test/java/edu/pucmm/EmployeeManagerTest.java:222-232 | Adding an employee that was just added is rejected as a duplicate. |
| `Roster.AddThenRemove` | src/test/java/edu/pucmm/EmployeeManagerTest.java:53-55 | Removing an employee just added restores exactly the list it was added to. |
| `Roster.RemoveOutcome` | src/test/java/edu/pucmm/EmployeeManagerTest.java:208-219 | Not-found exactly when the id is not managed; success exactly when it is. |
| `Roster.RemoveEffect` | src/test/java/edu/pucmm/EmployeeManagerTest.java:195-206 | On success exactly one entry, the one with the id, is deleted. The remaining entries keep their order, every other employee remains, and nothing new appears. The total falls by the removed salary. With unique ids, the id is no longer managed. |
| `Roster.RemovePreservesWellFormed` | src/test/java/edu/pucmm/EmployeeManagerTest.java:46-56 | A successful remove keeps ids unique and every salary within its band. |
| `Roster.UpdateSalaryOutcome` | src/test/java/edu/pucmm/EmployeeManagerTest.java:80-107 | Not-found exactly when the id is not managed. Invalid salary (salary-update site) exactly when the new salary is outside the managed employee's current band. Success otherwise. |
| `Roster.UpdateSalaryEffect` | src/test/java/edu/pucmm/EmployeeManagerTest.java:70-77 | On success only that employee's salary changes, to the new value. Every other entry, the order and the id set stay the same, and the total moves by the difference. |
| `Roster.UpdateSalaryPreservesWellFormed` | src/test/java/edu/pucmm/EmployeeManagerTest.java:75 | A successful salary update keeps ids unique and every salary within its band. |
| `Roster.UpdatePositionOutcome` | src/test/java/edu/pucmm/EmployeeManagerTest.java:121-148 | Not-found exactly when the id is not managed. Invalid salary (position-update site) exactly when the employee's current salary is outside the NEW position's band. Success otherwise. |
| `Roster.UpdatePositionEffect` | src/test/java/edu/pucmm/EmployeeManagerTest.java:109-119 | On success only that employee's position changes, to the new one. Salaries and the total, every other entry, the order and the id set stay the same. |
| `Roster.UpdatePositionPreservesWellFormed` | src/test/java/edu/pucmm/EmployeeManagerTest.java:117 | A successful position update keeps ids unique and every salary within its band. |
| `Entities.BandBoundsInclusive` | src/test/java/edu/pucmm/EmployeeManagerTest.java:158-161 | Both bounds of a band are valid salaries, and one step beyond either bound is not. |
| `Roster.ManagedBandsOrdered` | src/test/java/edu/pucmm/EmployeeManagerTest.java:28-29 | Every managed employee holds a position whose minimum salary does not exceed its maximum. |
| `Roster.DisorderedBandRejected` | src/test/java/edu/pucmm/EmployeeManagerTest.java:28-29 | An employee whose position has a minimum above its maximum cannot be added, and nobody can be moved into such a position. |
| `Scenarios.SalaryBandExamples` | src/test/java/edu/pucmm/EmployeeManagerTest.java:158-161 | 40000 is valid for Junior Developer and 60000 is not; 70000 is valid for Senior Developer and 50000 is not. |
| `Scenarios.SetUp` | src/test/java/edu/pucmm/EmployeeManagerTest.java:26-33 | The fixture yields a fresh, valid manager holding John Doe only. |

`Entities.IsSalaryValidForPosition` is the band check itself. It holds exactly
when `minSalary <= salary <= maxSalary`, with both bounds inclusive. It is a
definition, so it has no row of its own. The lemmas above state its
consequences.

## Left out

- The JUnit machinery: fixtures, assertions, and exceptions caught with
  try/catch. Each test that drives the manager is a client method in
  `Scenarios`; `testIsSalaryValidForPosition` is the lemma
  `SalaryBandExamples`. Each exception is an `Error` value returned in an
  `Outcome`.
- Message strings: errors carry a kind and a call-site tag, not text.
- Aliasing: Java callers hold the same `Employee` objects as the manager. They
  can change those objects, or the list that `getEmployees` returns, without
  any validation. Here employees are values, and only the manager's methods
  change the list, so the model captures only the changes the manager makes.
  Reading an employee's salary after an update is done with `Roster.Lookup` on
  the managed list.
- Identity by reference: equality is by `id` throughout.
- Salary arithmetic: salaries are unbounded integers. The tests use only whole
  numbers, and the Java salary type and its overflow or rounding are not part
  of this model.
- `Position` accessors and immutability: positions are values, so they cannot
  change after construction. The tests only build positions with `minSalary
  <= maxSalary` (lines 28-29). The model accepts any bounds. A position with
  `minSalary > maxSalary` admits no salary, so no employee can be added to it
  or moved into it (`Roster.DisorderedBandRejected`).
