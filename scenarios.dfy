/**
 * The fixture and scenarios of EmployeeManagerTest, replayed as client code:
 * every outcome the tests expect follows from the manager's contracts alone.
 */
module Scenarios {
  import opened Wrappers
  import opened Entities
  import opened Roster
  import opened Manager

  const JUNIOR_DEVELOPER := Position("1", "Junior Developer", 30000, 50000)
  const SENIOR_DEVELOPER := Position("2", "Senior Developer", 60000, 90000)
  const JOHN := Employee("1", "John Doe", JUNIOR_DEVELOPER, 40000)
  const JANE := Employee("2", "Jane Smith", SENIOR_DEVELOPER, 70000)

  /** The test fixture: a fresh manager holding John only. */
  method SetUp() returns (m: EmployeeManager)
    ensures fresh(m) && m.Valid()
    ensures m.employees == [JOHN]
  {
    m := new EmployeeManager();
    var r := m.AddEmployee(JOHN);
    assert Find([], JOHN.id) == None;
  }

  /** The band check on the fixture's positions. */
  lemma SalaryBandExamples()
    ensures IsSalaryValidForPosition(JUNIOR_DEVELOPER, 40000)
    ensures !IsSalaryValidForPosition(JUNIOR_DEVELOPER, 60000)
    ensures IsSalaryValidForPosition(SENIOR_DEVELOPER, 70000)
    ensures !IsSalaryValidForPosition(SENIOR_DEVELOPER, 50000)
  {
  }

  method AddEmployeeScenario() {
    var m := SetUp();
    AddOutcome([JOHN], JANE);
    var r := m.AddEmployee(JANE);
    var list := m.GetEmployees();
    assert r == Pass;
    assert |list| == 2 && JANE in list;
  }

  method RemoveEmployeeScenario() {
    var m := SetUp();
    AddOutcome([JOHN], JANE);
    var r := m.AddEmployee(JANE);
    RemoveEffect([JOHN, JANE], JOHN.id);
    r := m.RemoveEmployee(JOHN);
    var list := m.GetEmployees();
    assert r == Pass;
    assert |list| == 1 && JOHN !in list;
  }

  method CalculateTotalSalaryScenario() {
    var m := SetUp();
    AddOutcome([JOHN], JANE);
    var r := m.AddEmployee(JANE);
    AddEffect([JOHN], JANE);
    var total := m.CalculateTotalSalary();
    assert total == JOHN.salary + JANE.salary;
  }

  method UpdateEmployeeSalaryValidScenario() {
    var m := SetUp();
    var r := m.UpdateEmployeeSalary(JOHN, 45000);
    assert r == Pass;
    assert Lookup(m.employees, JOHN.id).value.salary == 45000;
  }

  method UpdateEmployeeSalaryInvalidScenario() {
    var m := SetUp();
    var r := m.UpdateEmployeeSalary(JOHN, 60000);
    assert r == Fail(InvalidSalary(OnSalaryUpdate));
    assert Lookup(m.employees, JOHN.id).value.salary == 40000;
  }

  method UpdateEmployeeSalaryNotFoundScenario() {
    var m := SetUp();
    RemoveOutcome([JOHN], JANE.id);
    var r := m.UpdateEmployeeSalary(JANE, 70000);
    assert r == Fail(EmployeeNotFound);
  }

  method UpdateEmployeePositionValidScenario() {
    var m := SetUp();
    AddOutcome([JOHN], JANE);
    var r := m.AddEmployee(JANE);
    AddEffect([JOHN], JANE);
    UpdatePositionOutcome([JOHN, JANE], JANE.id, SENIOR_DEVELOPER);
    UpdatePositionEffect([JOHN, JANE], JANE.id, SENIOR_DEVELOPER);
    r := m.UpdateEmployeePosition(JANE, SENIOR_DEVELOPER);
    assert r == Pass;
    assert Lookup(m.employees, JANE.id).value.position.name == "Senior Developer";
  }

  method UpdateEmployeePositionInvalidScenario() {
    var m := SetUp();
    var r := m.UpdateEmployeePosition(JOHN, SENIOR_DEVELOPER);
    assert r == Fail(InvalidSalary(OnPositionUpdate));
    assert m.employees == [JOHN];
  }

  method UpdateEmployeePositionNotFoundScenario() {
    var m := SetUp();
    RemoveOutcome([JOHN], JANE.id);
    var r := m.UpdateEmployeePosition(JANE, JUNIOR_DEVELOPER);
    assert r == Fail(EmployeeNotFound);
  }

  method AddEmployeeWithInvalidSalaryScenario() {
    var m := SetUp();
    var invalidJunior := Employee("3", "Invalid Junior", JUNIOR_DEVELOPER, 60000);
    var invalidSenior := Employee("4", "Invalid Senior", SENIOR_DEVELOPER, 40000);
    AddOutcome([JOHN], invalidJunior);
    var r1 := m.AddEmployee(invalidJunior);
    AddOutcome([JOHN], invalidSenior);
    var r2 := m.AddEmployee(invalidSenior);
    assert r1 == Fail(InvalidSalary(OnAdd)) && r2 == Fail(InvalidSalary(OnAdd));
    assert m.employees == [JOHN];
  }

  method RemoveExistentEmployeeScenario() {
    var m := SetUp();
    RemoveEffect([JOHN], JOHN.id);
    var r := m.RemoveEmployee(JOHN);
    var list := m.GetEmployees();
    assert r == Pass && JOHN !in list;
  }

  method RemoveNonExistentEmployeeScenario() {
    var m := SetUp();
    RemoveOutcome([JOHN], JANE.id);
    var r := m.RemoveEmployee(JANE);
    assert r == Fail(EmployeeNotFound);
  }

  method AddDuplicateEmployeeScenario() {
    var m := SetUp();
    AddOutcome([JOHN], JOHN);
    var r := m.AddEmployee(JOHN);
    assert r == Fail(DuplicateEmployee);
    assert m.employees == [JOHN];
  }
}
