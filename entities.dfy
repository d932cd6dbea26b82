/**
 * The two passive entities of the roster, positions and employees, the
 * error kinds the manager reports, and the salary-band check that every
 * validating operation of the manager relies on.
 */
module Entities {

  /** A job grade with the inclusive salary band [minSalary, maxSalary]. */
  datatype Position = Position(id: string, name: string, minSalary: int, maxSalary: int)

  /** A person holding one position at a current salary; identified by `id`. */
  datatype Employee = Employee(id: string, name: string, position: Position, salary: int)

  /**
   * Which validation rejected a salary. The source reports a different
   * message at each of the three sites.
   */
  datatype SalaryCheck =
    | OnAdd             // "Invalid salary for position"
    | OnSalaryUpdate    // "Salary is not within the range for the position"
    | OnPositionUpdate  // "Current salary is not within the range for the new position"

  /** The three rejections the manager can report. */
  datatype Error =
    | DuplicateEmployee        // "Duplicate employee"
    | EmployeeNotFound         // "Employee not found"
    | InvalidSalary(check: SalaryCheck)

  /** The band check: both bounds are inclusive. */
  predicate IsSalaryValidForPosition(p: Position, salary: int)
  {
    p.minSalary <= salary <= p.maxSalary
  }

  /** An employee whose salary lies within the band of its own position. */
  predicate InBand(e: Employee)
  {
    IsSalaryValidForPosition(e.position, e.salary)
  }

  /** Both ends of a band are valid salaries; one step past either end is not. */
  lemma BandBoundsInclusive(p: Position)
    requires p.minSalary <= p.maxSalary
    ensures IsSalaryValidForPosition(p, p.minSalary)
    ensures IsSalaryValidForPosition(p, p.maxSalary)
    ensures !IsSalaryValidForPosition(p, p.minSalary - 1)
    ensures !IsSalaryValidForPosition(p, p.maxSalary + 1)
  {
  }
}
