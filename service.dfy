/**
 * The HR service as the handlers run it: mutable collections that each
 * request reads and updates in sequence. Every method is proved to answer
 * and to leave the tables exactly as the endpoint function of the same name
 * in Endpoints says.
 */
module Service {
  import opened Http
  import opened Models
  import opened Auth
  import opened Tables
  import Endpoints

  class HrService {
    var users: seq<User>
    var employees: seq<Employee>
    var leaveBalances: map<BalanceKey, LeaveBalance>
    var sickDays: map<SickKey, SickDays>
    var leaveAdjustments: seq<LeaveAdjustment>
    var auditLogs: seq<AuditLog>
    var nextId: nat

    /** The collections as one database value. */
    function Snapshot(): Db
      reads this
    {
      Db(users, employees, leaveBalances, sickDays, leaveAdjustments, auditLogs, nextId)
    }

    ghost predicate Valid()
      reads this
    {
      Tables.Valid(Snapshot())
    }

    /** A service over an existing, consistent database. */
    constructor (db: Db)
      requires Tables.Valid(db)
      ensures Valid() && Snapshot() == db
    {
      users, employees := db.users, db.employees;
      leaveBalances, sickDays := db.leaveBalances, db.sickDays;
      leaveAdjustments, auditLogs := db.leaveAdjustments, db.auditLogs;
      nextId := db.nextId;
    }

    method CreateEmployee(caller: User, data: EmployeeCreate, passwordHash: string, year: int, month: int)
      returns (r: Result<EmployeeResponse>)
      requires Valid()
      modifies this
      ensures Valid()
      ensures var out := Endpoints.CreateEmployee(old(Snapshot()), caller, data, passwordHash, year, month);
              r == out.result && Snapshot() == out.db
    {
      ghost var before := Snapshot();
      Endpoints.CreateEmployeeKeepsValid(before, caller, data, passwordHash, year, month);
      var gate := RequireRole(caller, ADMIN_HR);
      if gate.Err? {
        return Err(gate.error);
      }
      if EmailTaken(users, data.email) {
        return Err(Endpoints.EMAIL_EXISTS);
      }
      if caller.role == Role.HR && data.role !in [Role.Employee, Role.Manager] {
        return Err(Endpoints.HR_ROLE_LIMIT);
      }
      var userId := nextId;
      var employeeId := nextId + 1;
      nextId := nextId + 2;
      users := users + [User(userId, data.email, passwordHash, data.role, true)];
      employees := employees + [Employee.Employee(employeeId, userId, data.fullName, data.email, data.department,
                                                  data.position, data.hireDate, data.phoneNumber,
                                                  data.initialLeaveBalance, true, caller.id)];
      leaveBalances := leaveBalances[BalanceKey(employeeId, year, month) :=
        LeaveBalance(data.initialLeaveBalance, 0.0, 0.0, data.initialLeaveBalance)];
      sickDays := sickDays[SickKey(employeeId, year) := SickDays(0, SICK_DAYS_PER_YEAR)];
      auditLogs := auditLogs + [AuditLog(caller.id, "CREATE_EMPLOYEE", "employee", employeeId,
                                         Endpoints.CreateDetails(data.fullName, data.email))];
      r := Ok(EmployeeResponse(employeeId, data.fullName, data.email, data.department, data.position,
                               data.hireDate, data.phoneNumber, data.initialLeaveBalance, 0, SICK_DAYS_PER_YEAR));
      assert Snapshot() == Endpoints.CreateEmployee(before, caller, data, passwordHash, year, month).db;
    }

    method GetEmployees(caller: User, year: int, month: int) returns (r: Result<seq<EmployeeResponse>>)
      ensures r == Endpoints.GetEmployees(Snapshot(), caller, year, month)
    {
      var gate := RequireRole(caller, ADMIN_HR_MANAGER);
      if gate.Err? {
        return Err(gate.error);
      }
      ghost var db := Snapshot();
      var found := FindActive(employees, LIST_LIMIT);
      var response: seq<EmployeeResponse> := [];
      var i := 0;
      while i < |found|
        invariant 0 <= i <= |found|
        invariant |response| == i
        invariant forall k :: 0 <= k < i ==> response[k] == Respond(db, found[k], year, month)
      {
        var emp := found[i];
        var balanceKey := BalanceKey(emp.id, year, month);
        var currentBalance := if balanceKey in leaveBalances then leaveBalances[balanceKey].closingBalance else 0.0;
        var sickKey := SickKey(emp.id, year);
        var used := if sickKey in sickDays then sickDays[sickKey].usedDays else 0;
        response := response + [EmployeeResponse(emp.id, emp.fullName, emp.email, emp.department, emp.position,
                                                 emp.hireDate, emp.phoneNumber, currentBalance,
                                                 used, SICK_DAYS_PER_YEAR - used)];
        i := i + 1;
      }
      assert response == Views(db, found, year, month);
      assert Endpoints.GetEmployees(db, caller, year, month) == Ok(Views(db, found, year, month));
      r := Ok(response);
    }

    method GetEmployee(caller: User, employeeId: Id, year: int, month: int) returns (r: Result<EmployeeResponse>)
      ensures r == Endpoints.GetEmployee(Snapshot(), caller, employeeId, year, month)
    {
      var gate := RequireRole(caller, ADMIN_HR_MANAGER);
      if gate.Err? {
        return Err(gate.error);
      }
      var employee := FindActiveEmployee(employees, employeeId);
      if employee.None? {
        return Err(Endpoints.EMPLOYEE_NOT_FOUND);
      }
      var emp := employee.value;
      var balanceKey := BalanceKey(employeeId, year, month);
      var currentBalance := if balanceKey in leaveBalances then leaveBalances[balanceKey].closingBalance else 0.0;
      var sickKey := SickKey(employeeId, year);
      var used := if sickKey in sickDays then sickDays[sickKey].usedDays else 0;
      r := Ok(EmployeeResponse(emp.id, emp.fullName, emp.email, emp.department, emp.position,
                               emp.hireDate, emp.phoneNumber, currentBalance, used, SICK_DAYS_PER_YEAR - used));
    }

    method AdjustLeaveBalance(caller: User, employeeId: Id, amount: real, reason: string, year: int, month: int)
      returns (r: Result<AdjustResponse>)
      requires Valid()
      modifies this
      ensures Valid()
      ensures var out := Endpoints.AdjustLeaveBalance(old(Snapshot()), caller, employeeId, amount, reason, year, month);
              r == out.result && Snapshot() == out.db
    {
      ghost var before := Snapshot();
      Endpoints.AdjustLeaveBalanceKeepsValid(before, caller, employeeId, amount, reason, year, month);
      var gate := RequireRole(caller, ADMIN_HR);
      if gate.Err? {
        return Err(gate.error);
      }
      if !IsValidAdjustment(amount) {
        return Err(Endpoints.INVALID_AMOUNT);
      }
      var employee := FindActiveEmployee(employees, employeeId);
      if employee.None? {
        return Err(Endpoints.EMPLOYEE_NOT_FOUND);
      }
      assert Endpoints.AdjustGuards(before, caller, employee.value.id, amount) == Ok(employee.value);
      r := ApplyAdjustment(caller, employee.value, amount, reason, year, month);
    }

    /**
     * The part of leave adjustment after its guards: get or create this
     * month's record, move its closing balance and HR adjustments, then log
     * the adjustment and the audit entry.
     */
    method ApplyAdjustment(caller: User, employee: Employee, amount: real, reason: string, year: int, month: int)
      returns (r: Result<AdjustResponse>)
      requires Valid()
      requires Endpoints.AdjustGuards(Snapshot(), caller, employee.id, amount) == Ok(employee)
      modifies this
      ensures Valid()
      ensures var out := Endpoints.ApplyAdjustment(old(Snapshot()), caller, employee, amount, reason, year, month,
                                                   BalanceOrZero(old(Snapshot()), BalanceKey(employee.id, year, month)));
              r == out.result && Snapshot() == out.db
    {
      ghost var before := Snapshot();
      var key := BalanceKey(employee.id, year, month);
      if key !in leaveBalances {
        leaveBalances := leaveBalances[key := ZERO_BALANCE];
      }
      var record := leaveBalances[key];
      var newBalance := record.closingBalance + amount;
      leaveBalances := leaveBalances[key := record.(closingBalance := newBalance,
                                                    hrAdjustments := record.hrAdjustments + amount)];
      leaveAdjustments := leaveAdjustments + [LeaveAdjustment(employee.id, amount, reason, caller.id)];
      auditLogs := auditLogs + [AuditLog(caller.id, "ADJUST_LEAVE_BALANCE", "employee", employee.id,
                                         Endpoints.AdjustDetails(employee.fullName, amount, reason, newBalance))];
      r := Ok(AdjustResponse(Endpoints.ADJUSTED_MESSAGE, newBalance, amount));
      assert Snapshot() == Endpoints.ApplyAdjustment(before, caller, employee, amount, reason, year, month,
                                                     BalanceOrZero(before, key)).db;
      Endpoints.ApplyAdjustmentKeepsValid(before, caller, employee, amount, reason, year, month);
    }

    method AdjustLeaveBalanceBody(caller: User, employeeId: Id, request: LeaveAdjustmentRequest,
                                  year: int, month: int) returns (r: Result<AdjustResponse>)
      requires Valid()
      modifies this
      ensures Valid()
      ensures var out := Endpoints.AdjustLeaveBalanceBody(old(Snapshot()), caller, employeeId, request, year, month);
              r == out.result && Snapshot() == out.db
    {
      var gate := RequireRole(caller, ADMIN_HR);
      if gate.Err? {
        return Err(gate.error);
      }
      r := AdjustLeaveBalance(gate.value, employeeId, request.adjustment, request.reason, year, month);
    }
  }
}
