/**
 * The employee manager: the object that owns the ordered collection of
 * managed employees and mediates every change to it. Each operation
 * validates before it changes anything, so on an error the collection is
 * left as it was; each is proved to follow the matching function of module
 * Roster and to keep the collection well formed.
 */
module Manager {
  import opened Wrappers
  import opened Entities
  import opened Roster

  /** Linear search for the index of the first employee with identifier `id`. */
  method IndexOf(s: seq<Employee>, id: string) returns (k: Option<nat>)
    ensures k == Find(s, id)
  {
    var i := 0;
    while i < |s|
      invariant 0 <= i <= |s|
      invariant forall j :: 0 <= j < i ==> s[j].id != id
    {
      if s[i].id == id {
        assert s[i] in s;
        return Some(i);
      }
      i := i + 1;
    }
    return None;
  }

  class EmployeeManager {
    var employees: seq<Employee>

    /** Identifiers are unique and every salary lies within its position's band. */
    ghost predicate Valid()
      reads this
    {
      WellFormed(employees)
    }

    constructor ()
      ensures Valid()
      ensures employees == []
    {
      employees := [];
    }

    /** The managed employees, in insertion order. */
    method GetEmployees() returns (s: seq<Employee>)
      ensures s == employees
    {
      s := employees;
    }

    /**
     * Adds `e` unless an employee with its identifier is already managed
     * (duplicate) or its salary is outside its position's band (invalid
     * salary); on success `e` is appended.
     */
    method AddEmployee(e: Employee) returns (r: Outcome<Error>)
      requires Valid()
      modifies this
      ensures Valid()
      ensures r == Add(old(employees), e).ToOutcome()
      ensures employees == Add(old(employees), e).GetOr(old(employees))
    {
      var k := IndexOf(employees, e.id);
      if k.Some? {
        return Fail(DuplicateEmployee);
      }
      if !IsSalaryValidForPosition(e.position, e.salary) {
        return Fail(InvalidSalary(OnAdd));
      }
      AddPreservesWellFormed(employees, e);
      employees := employees + [e];
      r := Pass;
    }

    /** Removes the employee with `e`'s identifier, or reports it not found. */
    method RemoveEmployee(e: Employee) returns (r: Outcome<Error>)
      requires Valid()
      modifies this
      ensures Valid()
      ensures r == Remove(old(employees), e.id).ToOutcome()
      ensures employees == Remove(old(employees), e.id).GetOr(old(employees))
    {
      var k := IndexOf(employees, e.id);
      if k.None? {
        return Fail(EmployeeNotFound);
      }
      RemovePreservesWellFormed(employees, e.id);
      employees := employees[..k.value] + employees[k.value + 1..];
      r := Pass;
    }

    /** The sum of the salaries of all managed employees. */
    method CalculateTotalSalary() returns (total: int)
      ensures total == TotalSalary(employees)
    {
      total := 0;
      var i := 0;
      while i < |employees|
        invariant 0 <= i <= |employees|
        invariant total + TotalSalary(employees[i..]) == TotalSalary(employees)
      {
        assert employees[i..][1..] == employees[i + 1..];
        total := total + employees[i].salary;
        i := i + 1;
      }
    }

    /**
     * Sets the salary of the managed employee with `e`'s identifier to
     * `newSalary`, provided it lies within that employee's current band.
     */
    method UpdateEmployeeSalary(e: Employee, newSalary: int) returns (r: Outcome<Error>)
      requires Valid()
      modifies this
      ensures Valid()
      ensures r == UpdateSalary(old(employees), e.id, newSalary).ToOutcome()
      ensures employees == UpdateSalary(old(employees), e.id, newSalary).GetOr(old(employees))
    {
      var k := IndexOf(employees, e.id);
      if k.None? {
        return Fail(EmployeeNotFound);
      }
      var current := employees[k.value];
      if !IsSalaryValidForPosition(current.position, newSalary) {
        return Fail(InvalidSalary(OnSalaryUpdate));
      }
      UpdateSalaryPreservesWellFormed(employees, e.id, newSalary);
      employees := employees[k.value := current.(salary := newSalary)];
      r := Pass;
    }

    /**
     * Moves the managed employee with `e`'s identifier to `newPosition`,
     * provided its current salary lies within the new position's band.
     */
    method UpdateEmployeePosition(e: Employee, newPosition: Position) returns (r: Outcome<Error>)
      requires Valid()
      modifies this
      ensures Valid()
      ensures r == UpdatePosition(old(employees), e.id, newPosition).ToOutcome()
      ensures employees == UpdatePosition(old(employees), e.id, newPosition).GetOr(old(employees))
    {
      var k := IndexOf(employees, e.id);
      if k.None? {
        return Fail(EmployeeNotFound);
      }
      var current := employees[k.value];
      if !IsSalaryValidForPosition(newPosition, current.salary) {
        return Fail(InvalidSalary(OnPositionUpdate));
      }
      UpdatePositionPreservesWellFormed(employees, e.id, newPosition);
      employees := employees[k.value := current.(position := newPosition)];
      r := Pass;
    }
  }
}
