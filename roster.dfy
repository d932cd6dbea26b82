/**
 * The manager's roster as a value: an ordered sequence of employees, the
 * lookups on it, and each manager operation as a function from the roster
 * before to either the roster after or the error it reports. The lemmas
 * state what each operation promises; the class in module Manager is proved
 * to follow these functions.
 */
module Roster {
  import opened Wrappers
  import opened Entities

  /** The identifiers of the managed employees. */
  function Ids(s: seq<Employee>): set<string>
  {
    set e | e in s :: e.id
  }

  /** No two managed employees share an identifier. */
  predicate Unique(s: seq<Employee>)
  {
    forall i, j :: 0 <= i < j < |s| ==> s[i].id != s[j].id
  }

  /** Every managed employee's salary is within its position's band. */
  predicate AllInBand(s: seq<Employee>)
  {
    forall e :: e in s ==> InBand(e)
  }

  /** The invariant of the manager's collection. */
  predicate WellFormed(s: seq<Employee>)
  {
    Unique(s) && AllInBand(s)
  }

  /** The index of the first employee with identifier `id`, if any. */
  function Find(s: seq<Employee>, id: string): (r: Option<nat>)
    ensures r.Some? ==> r.value < |s| && s[r.value].id == id
    ensures r.Some? ==> forall j :: 0 <= j < r.value ==> s[j].id != id
    ensures r.None? <==> id !in Ids(s)
  {
    if |s| == 0 then None
    else if s[0].id == id then
      assert s[0] in s;
      Some(0)
    else
      assert s == [s[0]] + s[1..];
      match Find(s[1..], id)
      case None => None
      case Some(k) => Some(k + 1)
  }

  /** The managed employee with identifier `id`, if any. */
  function Lookup(s: seq<Employee>, id: string): (r: Option<Employee>)
    ensures r.Some? <==> id in Ids(s)
    ensures r.Some? ==> r.value in s && r.value.id == id
  {
    match Find(s, id)
    case None => None
    case Some(k) => Some(s[k])
  }

  /** The sum of the salaries of all managed employees; 0 when there are none. */
  function TotalSalary(s: seq<Employee>): int
  {
    if s == [] then 0 else s[0].salary + TotalSalary(s[1..])
  }

  /** `addEmployee`: duplicate check first, then the band check, then append. */
  function Add(s: seq<Employee>, e: Employee): Result<seq<Employee>, Error>
  {
    if Find(s, e.id).Some? then Failure(DuplicateEmployee)
    else if !IsSalaryValidForPosition(e.position, e.salary) then Failure(InvalidSalary(OnAdd))
    else Success(s + [e])
  }

  /** `removeEmployee`: drop the matching entry, keeping the others in order. */
  function Remove(s: seq<Employee>, id: string): Result<seq<Employee>, Error>
  {
    match Find(s, id)
    case None => Failure(EmployeeNotFound)
    case Some(k) => Success(s[..k] + s[k + 1..])
  }

  /** `updateEmployeeSalary`: the new salary is checked against the current position. */
  function UpdateSalary(s: seq<Employee>, id: string, salary: int): Result<seq<Employee>, Error>
  {
    match Find(s, id)
    case None => Failure(EmployeeNotFound)
    case Some(k) =>
      if !IsSalaryValidForPosition(s[k].position, salary) then Failure(InvalidSalary(OnSalaryUpdate))
      else Success(s[k := s[k].(salary := salary)])
  }

  /** `updateEmployeePosition`: the current salary is checked against the new position. */
  function UpdatePosition(s: seq<Employee>, id: string, p: Position): Result<seq<Employee>, Error>
  {
    match Find(s, id)
    case None => Failure(EmployeeNotFound)
    case Some(k) =>
      if !IsSalaryValidForPosition(p, s[k].salary) then Failure(InvalidSalary(OnPositionUpdate))
      else Success(s[k := s[k].(position := p)])
  }

  // ------------------------------------------------------------------ bands

  /** Every managed employee holds a position whose band is ordered. */
  lemma ManagedBandsOrdered(s: seq<Employee>)
    requires AllInBand(s)
    ensures forall e :: e in s ==> e.position.minSalary <= e.position.maxSalary
  {
  }

  /**
   * A position whose minimum exceeds its maximum admits no salary: no
   * employee holding it can be added, and nobody can be moved into it.
   */
  lemma DisorderedBandRejected(s: seq<Employee>, e: Employee, id: string)
    requires e.position.minSalary > e.position.maxSalary
    ensures Add(s, e).Failure?
    ensures UpdatePosition(s, id, e.position).Failure?
  {
  }

  // ---------------------------------------------------------------- lookups

  /** Rosters that agree on every position's identifier agree on every search. */
  lemma {:induction false} FindSameIds(s: seq<Employee>, t: seq<Employee>, id: string)
    requires |s| == |t|
    requires forall j :: 0 <= j < |s| ==> s[j].id == t[j].id
    ensures Find(s, id) == Find(t, id)
    ensures Ids(s) == Ids(t)
  {
    if |s| > 0 {
      FindSameIds(s[1..], t[1..], id);
    }
    forall x | x in Ids(s) ensures x in Ids(t) {
      var e :| e in s && e.id == x;
      var j :| 0 <= j < |s| && s[j] == e;
      assert t[j] in t;
    }
    forall x | x in Ids(t) ensures x in Ids(s) {
      var e :| e in t && e.id == x;
      var j :| 0 <= j < |t| && t[j] == e;
      assert s[j] in s;
    }
  }

  // ------------------------------------------------------------ total salary

  /** The total of a concatenation is the sum of the totals. */
  lemma {:induction false} TotalSalaryConcat(a: seq<Employee>, b: seq<Employee>)
    ensures TotalSalary(a + b) == TotalSalary(a) + TotalSalary(b)
  {
    if a == [] {
      assert a + b == b;
    } else {
      assert (a + b)[1..] == a[1..] + b;
      TotalSalaryConcat(a[1..], b);
    }
  }

  /** The total splits around any one employee. */
  lemma TotalSalarySplit(s: seq<Employee>, k: nat)
    requires k < |s|
    ensures TotalSalary(s) == TotalSalary(s[..k]) + s[k].salary + TotalSalary(s[k + 1..])
  {
    assert s == s[..k] + [s[k]] + s[k + 1..];
    TotalSalaryConcat(s[..k] + [s[k]], s[k + 1..]);
    TotalSalaryConcat(s[..k], [s[k]]);
  }

  /** Replacing one employee changes the total by the difference of the two salaries. */
  lemma TotalSalaryReplace(s: seq<Employee>, k: nat, e: Employee)
    requires k < |s|
    ensures TotalSalary(s[k := e]) == TotalSalary(s) - s[k].salary + e.salary
  {
    var t := s[k := e];
    TotalSalarySplit(s, k);
    TotalSalarySplit(t, k);
    assert t[..k] == s[..k];
    assert t[k + 1..] == s[k + 1..];
  }

  // -------------------------------------------------------------------- add

  /** Add rejects a managed identifier as a duplicate, then an out-of-band salary. */
  lemma AddOutcome(s: seq<Employee>, e: Employee)
    ensures Add(s, e) == Failure(DuplicateEmployee) <==> e.id in Ids(s)
    ensures Add(s, e) == Failure(InvalidSalary(OnAdd)) <==> e.id !in Ids(s) && !InBand(e)
    ensures Add(s, e).Success? <==> e.id !in Ids(s) && InBand(e)
  {
  }

  /**
   * A successful add appends the employee: the roster grows by exactly one,
   * keeps its earlier entries in order, finds the new employee under its
   * identifier, and its total grows by the new salary.
   */
  lemma AddEffect(s: seq<Employee>, e: Employee)
    requires Add(s, e).Success?
    ensures var r := Add(s, e).value;
      && |r| == |s| + 1
      && r[..|s|] == s
      && e in r
      && Ids(r) == Ids(s) + {e.id}
      && Lookup(r, e.id) == Some(e)
      && TotalSalary(r) == TotalSalary(s) + e.salary
  {
    var r := s + [e];
    assert r[..|s|] == s;
    assert r[|s|] == e;
    forall x | x in Ids(r) ensures x in Ids(s) + {e.id} {
      var y :| y in r && y.id == x;
      if y != e {
        assert y in s;
      }
    }
    forall j | 0 <= j < |s| ensures r[j].id != e.id {
      assert s[j] in s;
    }
    TotalSalaryConcat(s, [e]);
  }

  /** Add keeps the roster free of duplicates and within band. */
  lemma AddPreservesWellFormed(s: seq<Employee>, e: Employee)
    requires WellFormed(s)
    requires Add(s, e).Success?
    ensures WellFormed(Add(s, e).value)
  {
    var r := s + [e];
    forall i, j | 0 <= i < j < |r| ensures r[i].id != r[j].id {
      if j == |s| {
        assert s[i] in s;
      }
    }
  }

  /** Adding the same employee again is reported as a duplicate. */
  lemma AddTwiceIsDuplicate(s: seq<Employee>, e: Employee)
    requires Add(s, e).Success?
    ensures Add(Add(s, e).value, e) == Failure(DuplicateEmployee)
  {
    AddEffect(s, e);
  }

  /** Removing an employee just added gives back the roster it was added to. */
  lemma AddThenRemove(s: seq<Employee>, e: Employee)
    requires Add(s, e).Success?
    ensures Remove(Add(s, e).value, e.id) == Success(s)
  {
    var r := s + [e];
    AddEffect(s, e);
    assert Find(r, e.id) == Some(|s|) by {
      forall j | 0 <= j < |s| ensures r[j].id != e.id {
        assert s[j] in s;
      }
    }
    assert r[..|s|] + r[|s| + 1..] == s;
  }

  // ----------------------------------------------------------------- remove

  /** Remove fails exactly when no managed employee has the identifier. */
  lemma RemoveOutcome(s: seq<Employee>, id: string)
    ensures Remove(s, id) == Failure(EmployeeNotFound) <==> id !in Ids(s)
    ensures Remove(s, id).Success? <==> id in Ids(s)
  {
  }

  /**
   * A successful remove deletes exactly one entry, the one with `id`, keeps
   * the other entries in their order, and lowers the total by its salary;
   * with unique identifiers, no employee with `id` remains.
   */
  lemma RemoveEffect(s: seq<Employee>, id: string)
    requires Remove(s, id).Success?
    ensures var r := Remove(s, id).value;
      && |r| == |s| - 1
      && (exists k :: 0 <= k < |s| && s[k].id == id && r == s[..k] + s[k + 1..])
      && (forall x :: x in s && x.id != id ==> x in r)
      && (forall x :: x in r ==> x in s)
      && TotalSalary(r) == TotalSalary(s) - Lookup(s, id).value.salary
      && (Unique(s) ==> id !in Ids(r))
  {
    var k := Find(s, id).value;
    DeleteKeepsOthers(s, k);
    TotalSalarySplit(s, k);
    TotalSalaryConcat(s[..k], s[k + 1..]);
    if Unique(s) {
      DeleteDropsId(s, k);
    }
  }

  /** Deleting the entry at `k` keeps every other employee and adds none. */
  lemma DeleteKeepsOthers(s: seq<Employee>, k: nat)
    requires k < |s|
    ensures forall x :: x in s && x != s[k] ==> x in s[..k] + s[k + 1..]
    ensures forall x :: x in s[..k] + s[k + 1..] ==> x in s
  {
    var r := s[..k] + s[k + 1..];
    forall x | x in s && x != s[k] ensures x in r {
      var j :| 0 <= j < |s| && s[j] == x;
      if j < k {
        assert r[j] == x;
      } else {
        assert r[j - 1] == x;
      }
    }
  }

  /** With unique identifiers, deleting the entry at `k` leaves no entry with its identifier. */
  lemma DeleteDropsId(s: seq<Employee>, k: nat)
    requires k < |s|
    requires Unique(s)
    ensures s[k].id !in Ids(s[..k] + s[k + 1..])
  {
    var r := s[..k] + s[k + 1..];
    forall x | x in r ensures x.id != s[k].id {
      var j :| 0 <= j < |r| && r[j] == x;
      if j < k {
        assert x == s[j];
      } else {
        assert x == s[j + 1];
      }
    }
  }

  /** Remove keeps the roster free of duplicates and within band. */
  lemma RemovePreservesWellFormed(s: seq<Employee>, id: string)
    requires WellFormed(s)
    requires Remove(s, id).Success?
    ensures WellFormed(Remove(s, id).value)
  {
    var k := Find(s, id).value;
    var r := s[..k] + s[k + 1..];
    forall i, j | 0 <= i < j < |r| ensures r[i].id != r[j].id {
      var i' := if i < k then i else i + 1;
      var j' := if j < k then j else j + 1;
      assert r[i] == s[i'] && r[j] == s[j'];
    }
  }

  // ---------------------------------------------------------- update salary

  /**
   * Updating a salary fails as not found when no employee has `id`, and as
   * an invalid salary when the new value is outside the band of that
   * employee's current position.
   */
  lemma UpdateSalaryOutcome(s: seq<Employee>, id: string, salary: int)
    ensures UpdateSalary(s, id, salary) == Failure(EmployeeNotFound) <==> id !in Ids(s)
    ensures UpdateSalary(s, id, salary) == Failure(InvalidSalary(OnSalaryUpdate)) <==>
      id in Ids(s) && !IsSalaryValidForPosition(Lookup(s, id).value.position, salary)
    ensures UpdateSalary(s, id, salary).Success? <==>
      id in Ids(s) && IsSalaryValidForPosition(Lookup(s, id).value.position, salary)
  {
  }

  /**
   * A successful salary update changes that one employee's salary and
   * nothing else: the other entries, the order and the identifiers stay,
   * and the total moves by the difference.
   */
  lemma UpdateSalaryEffect(s: seq<Employee>, id: string, salary: int)
    requires UpdateSalary(s, id, salary).Success?
    ensures var r := UpdateSalary(s, id, salary).value;
      var before := Lookup(s, id).value;
      && (exists k :: 0 <= k < |s| && s[k].id == id && r == s[k := s[k].(salary := salary)])
      && Lookup(r, id) == Some(before.(salary := salary))
      && Ids(r) == Ids(s)
      && TotalSalary(r) == TotalSalary(s) - before.salary + salary
  {
    var k := Find(s, id).value;
    var r := s[k := s[k].(salary := salary)];
    FindSameIds(s, r, id);
    TotalSalaryReplace(s, k, s[k].(salary := salary));
  }

  /** A salary update keeps the roster free of duplicates and within band. */
  lemma UpdateSalaryPreservesWellFormed(s: seq<Employee>, id: string, salary: int)
    requires WellFormed(s)
    requires UpdateSalary(s, id, salary).Success?
    ensures WellFormed(UpdateSalary(s, id, salary).value)
  {
    var k := Find(s, id).value;
    var r := s[k := s[k].(salary := salary)];
    forall x | x in r ensures InBand(x) {
      var j :| 0 <= j < |r| && r[j] == x;
      if j != k {
        assert s[j] in s;
      }
    }
  }

  // -------------------------------------------------------- update position

  /**
   * Updating a position fails as not found when no employee has `id`, and
   * as an invalid salary when that employee's current salary is outside the
   * new position's band.
   */
  lemma UpdatePositionOutcome(s: seq<Employee>, id: string, p: Position)
    ensures UpdatePosition(s, id, p) == Failure(EmployeeNotFound) <==> id !in Ids(s)
    ensures UpdatePosition(s, id, p) == Failure(InvalidSalary(OnPositionUpdate)) <==>
      id in Ids(s) && !IsSalaryValidForPosition(p, Lookup(s, id).value.salary)
    ensures UpdatePosition(s, id, p).Success? <==>
      id in Ids(s) && IsSalaryValidForPosition(p, Lookup(s, id).value.salary)
  {
  }

  /**
   * A successful position update changes that one employee's position and
   * nothing else; salaries, and so the total, are untouched.
   */
  lemma UpdatePositionEffect(s: seq<Employee>, id: string, p: Position)
    requires UpdatePosition(s, id, p).Success?
    ensures var r := UpdatePosition(s, id, p).value;
      && (exists k :: 0 <= k < |s| && s[k].id == id && r == s[k := s[k].(position := p)])
      && Lookup(r, id) == Some(Lookup(s, id).value.(position := p))
      && Ids(r) == Ids(s)
      && TotalSalary(r) == TotalSalary(s)
  {
    var k := Find(s, id).value;
    var r := s[k := s[k].(position := p)];
    FindSameIds(s, r, id);
    TotalSalaryReplace(s, k, s[k].(position := p));
  }

  /** A position update keeps the roster free of duplicates and within band. */
  lemma UpdatePositionPreservesWellFormed(s: seq<Employee>, id: string, p: Position)
    requires WellFormed(s)
    requires UpdatePosition(s, id, p).Success?
    ensures WellFormed(UpdatePosition(s, id, p).value)
  {
    var k := Find(s, id).value;
    var r := s[k := s[k].(position := p)];
    forall x | x in r ensures InBand(x) {
      var j :| 0 <= j < |r| && r[j] == x;
      if j != k {
        assert s[j] in s;
      }
    }
  }
}
