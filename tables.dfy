/**
 * The collections of the HR database as one value, the consistency the
 * service keeps between them, and the queries the endpoints run over them.
 *
 * users and employees keep insertion order, which is the order a query
 * returns them in; leave balances and sick days are keyed by what the
 * endpoints look them up by, since the service never stores two records
 * under one key.
 */
module Tables {
  import opened Http
  import opened Models

  /** Listing employees materialises at most this many documents. */
  const LIST_LIMIT: nat := 1000

  /** The balance record the adjustment endpoint starts from when a month has none. */
  const ZERO_BALANCE: LeaveBalance := LeaveBalance(0.0, 0.0, 0.0, 0.0)

  /**
   * The database. nextId stands in for uuid4: every id issued is nextId,
   * which then grows, so issued ids never collide.
   */
  datatype Db = Db(
    users: seq<User>,
    employees: seq<Employee>,
    leaveBalances: map<BalanceKey, LeaveBalance>,
    sickDays: map<SickKey, SickDays>,
    leaveAdjustments: seq<LeaveAdjustment>,
    auditLogs: seq<AuditLog>,
    nextId: nat)

  ghost predicate UsersValid(db: Db)
  {
    && (forall i :: 0 <= i < |db.users| ==> db.users[i].id < db.nextId)
    && (forall i, j :: 0 <= i < j < |db.users| ==>
          db.users[i].id != db.users[j].id && db.users[i].email != db.users[j].email)
  }

  ghost predicate EmployeesValid(db: Db)
  {
    && (forall i :: 0 <= i < |db.employees| ==> db.employees[i].id < db.nextId)
    && DistinctIds(db.employees)
  }

  /** A user and an employee never share an id: both come from the one counter. */
  ghost predicate IdsDisjoint(db: Db)
  {
    forall i, j :: 0 <= i < |db.users| && 0 <= j < |db.employees| ==> db.users[i].id != db.employees[j].id
  }

  ghost predicate BalancesValid(db: Db)
  {
    forall k :: k in db.leaveBalances ==> k.employeeId < db.nextId && Balanced(db.leaveBalances[k])
  }

  ghost predicate SickDaysValid(db: Db)
  {
    forall k :: k in db.sickDays ==>
      && k.employeeId < db.nextId
      && 0 <= db.sickDays[k].usedDays <= SICK_DAYS_PER_YEAR
      && db.sickDays[k].totalAllowed == SICK_DAYS_PER_YEAR
  }

  /**
   * What the service keeps true of its tables: ids are issued once, e-mail
   * addresses identify users, every balance record satisfies the ledger
   * equation, and sick-day records stay within the yearly allowance.
   */
  ghost predicate Valid(db: Db)
  {
    UsersValid(db) && EmployeesValid(db) && IdsDisjoint(db) && BalancesValid(db) && SickDaysValid(db)
  }

  /** Whether some user already has this e-mail address. */
  predicate EmailTaken(users: seq<User>, email: string)
  {
    exists i | 0 <= i < |users| :: users[i].email == email
  }

  /** The first employee with this id that is active. */
  function FindActiveEmployee(employees: seq<Employee>, id: Id): (r: Option<Employee>)
    ensures r.Some? ==> r.value in employees && r.value.id == id && r.value.isActive
    ensures r.None? <==> forall i :: 0 <= i < |employees| ==> !(employees[i].id == id && employees[i].isActive)
  {
    if |employees| == 0 then None
    else if employees[0].id == id && employees[0].isActive then Some(employees[0])
    else FindActiveEmployee(employees[1..], id)
  }

  /** Whether no two employees of the list share an id. */
  predicate DistinctIds(employees: seq<Employee>)
  {
    forall i, j :: 0 <= i < j < |employees| ==> employees[i].id != employees[j].id
  }

  /** All active employees, in stored order: what the listing query matches. */
  function ActiveOnly(employees: seq<Employee>): (r: seq<Employee>)
    ensures |r| <= |employees|
    ensures forall e :: e in r <==> e in employees && e.isActive
    ensures multiset(r) <= multiset(employees)
  {
    if |employees| == 0 then []
    else
      assert employees == [employees[0]] + employees[1..];
      if employees[0].isActive then [employees[0]] + ActiveOnly(employees[1..])
      else ActiveOnly(employees[1..])
  }

  /** Filtering keeps distinct ids distinct. */
  lemma {:induction false} ActiveOnlyKeepsDistinctIds(employees: seq<Employee>)
    ensures DistinctIds(employees) ==> DistinctIds(ActiveOnly(employees))
  {
    if |employees| > 0 && DistinctIds(employees) {
      var rest := ActiveOnly(employees[1..]);
      ActiveOnlyKeepsDistinctIds(employees[1..]);
      if employees[0].isActive {
        forall e | e in rest ensures e.id != employees[0].id {
          var j :| 0 <= j < |employees[1..]| && employees[1..][j] == e;
          assert employees[j + 1] == e;
        }
        assert ActiveOnly(employees) == [employees[0]] + rest;
      }
    }
  }

  /**
   * The listing query with its cap: the first limit active employees, in
   * stored order, each as often as it is stored.
   */
  function FindActive(employees: seq<Employee>, limit: nat): (r: seq<Employee>)
    ensures |r| == if |ActiveOnly(employees)| <= limit then |ActiveOnly(employees)| else limit
    ensures r == ActiveOnly(employees)[..|r|]
    ensures forall e :: e in r ==> e in employees && e.isActive
    ensures |r| < limit ==> forall e :: e in employees && e.isActive ==> e in r
    ensures multiset(r) <= multiset(employees)
    ensures DistinctIds(employees) ==> DistinctIds(r)
  {
    var all := ActiveOnly(employees);
    ActiveOnlyKeepsDistinctIds(employees);
    if |all| <= limit then
      assert all[..|all|] == all;
      all
    else
      assert all == all[..limit] + all[limit..];
      assert forall e :: e in all[..limit] ==> e in all;
      all[..limit]
  }

  /** The closing balance of this month's record, or 0.0 when there is none. */
  function CurrentBalance(db: Db, employeeId: Id, year: int, month: int): real
  {
    var key := BalanceKey(employeeId, year, month);
    if key in db.leaveBalances then db.leaveBalances[key].closingBalance else 0.0
  }

  /** Sick days used this year, or 0 when there is no record. */
  function SickDaysUsed(db: Db, employeeId: Id, year: int): int
  {
    var key := SickKey(employeeId, year);
    if key in db.sickDays then db.sickDays[key].usedDays else 0
  }

  /** This month's balance record, or the zero record when there is none. */
  function BalanceOrZero(db: Db, key: BalanceKey): LeaveBalance
  {
    if key in db.leaveBalances then db.leaveBalances[key] else ZERO_BALANCE
  }

  /** The response both read endpoints build for one stored employee. */
  function Respond(db: Db, e: Employee, year: int, month: int): (v: EmployeeResponse)
    ensures v.id == e.id && v.fullName == e.fullName && v.email == e.email && v.department == e.department
    ensures v.position == e.position && v.hireDate == e.hireDate && v.phoneNumber == e.phoneNumber
    ensures v.sickDaysUsed == SickDaysUsed(db, e.id, year)
    ensures v.currentLeaveBalance == BalanceOrZero(db, BalanceKey(e.id, year, month)).closingBalance
    ensures v.sickDaysUsed + v.sickDaysRemaining == SICK_DAYS_PER_YEAR
    ensures SickDaysValid(db) ==> 0 <= v.sickDaysUsed && 0 <= v.sickDaysRemaining <= SICK_DAYS_PER_YEAR
  {
    var used := SickDaysUsed(db, e.id, year);
    EmployeeResponse(e.id, e.fullName, e.email, e.department, e.position, e.hireDate,
                     e.phoneNumber, CurrentBalance(db, e.id, year, month), used, SICK_DAYS_PER_YEAR - used)
  }

  /** The responses for a list of employees, in the list's order. */
  function Views(db: Db, found: seq<Employee>, year: int, month: int): seq<EmployeeResponse>
  {
    seq(|found|, k requires 0 <= k < |found| => Respond(db, found[k], year, month))
  }

  /** The k-th listed response is the response for the k-th active employee, a stored one. */
  lemma ViewsFollowActive(db: Db, found: seq<Employee>, year: int, month: int)
    requires found == FindActive(db.employees, LIST_LIMIT)
    ensures forall k :: 0 <= k < |found| ==>
      && k < |ActiveOnly(db.employees)|
      && found[k] == ActiveOnly(db.employees)[k]
      && found[k] in db.employees && found[k].isActive
      && Views(db, found, year, month)[k] == Respond(db, found[k], year, month)
  {
    forall k | 0 <= k < |found| ensures found[k] in db.employees && found[k].isActive {
      assert found[k] in found;
    }
  }

  /** Every employee the query found has its response in the list. */
  lemma ViewsCoverFound(db: Db, found: seq<Employee>, year: int, month: int)
    ensures forall e :: e in found ==> Respond(db, e, year, month) in Views(db, found, year, month)
  {
    forall e | e in found ensures Respond(db, e, year, month) in Views(db, found, year, month) {
      var k :| 0 <= k < |found| && found[k] == e;
      assert Views(db, found, year, month)[k] == Respond(db, e, year, month);
    }
  }

  /** Responses carry their employee's id, so distinct stored ids give distinct listed ids. */
  lemma ViewsKeepDistinctIds(db: Db, found: seq<Employee>, year: int, month: int)
    ensures DistinctIds(found) ==>
      forall k, l :: 0 <= k < l < |found| ==> Views(db, found, year, month)[k].id != Views(db, found, year, month)[l].id
  {
  }

  /** With ids unique, an active stored employee is exactly what a lookup of its id finds. */
  lemma {:induction false} FindActiveEmployeeUnique(employees: seq<Employee>, i: nat)
    requires i < |employees| && employees[i].isActive
    requires DistinctIds(employees)
    ensures FindActiveEmployee(employees, employees[i].id) == Some(employees[i])
  {
    if i > 0 {
      assert employees[0].id != employees[i].id;
      FindActiveEmployeeUnique(employees[1..], i - 1);
    }
  }

  /** A lookup of the id of a newly appended employee, whose id nobody else carries, finds it. */
  lemma {:induction false} FindActiveEmployeeAppended(employees: seq<Employee>, e: Employee)
    requires e.isActive
    requires forall i :: 0 <= i < |employees| ==> employees[i].id != e.id
    ensures FindActiveEmployee(employees + [e], e.id) == Some(e)
  {
    if |employees| > 0 {
      assert (employees + [e])[1..] == employees[1..] + [e];
      FindActiveEmployeeAppended(employees[1..], e);
    }
  }
}
