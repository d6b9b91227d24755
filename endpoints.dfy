/**
 * The HR endpoints as functions from the database before a request to the
 * response and the database after it. The caller is the user the bearer
 * token resolved to; the current year and month, the password hash and the
 * fresh ids are inputs rather than reads of the clock, bcrypt and uuid4.
 */
module Endpoints {
  import opened Http
  import opened Models
  import opened Auth
  import opened Tables

  datatype Outcome<T> = Outcome(result: Result<T>, db: Db)

  const EMAIL_EXISTS: HttpError := HttpError(BAD_REQUEST, "User with this email already exists")
  const HR_ROLE_LIMIT: HttpError := HttpError(FORBIDDEN, "HR can only create Employee and Manager roles")
  const EMPLOYEE_NOT_FOUND: HttpError := HttpError(NOT_FOUND, "Employee not found")
  const INVALID_AMOUNT: HttpError := HttpError(BAD_REQUEST, "Invalid adjustment amount")
  /** What a handler that raises an uncaught TypeError answers. */
  const TYPE_ERROR: HttpError := HttpError(INTERNAL_SERVER_ERROR, "Internal Server Error")
  const ADJUSTED_MESSAGE: string := "Leave balance adjusted successfully"

  /** The details the audit entry of an employee creation records. */
  function CreateDetails(fullName: string, email: string): map<string, DetailValue>
  {
    map["employee_name" := Text(fullName), "email" := Text(email)]
  }

  /** The details the audit entry of a leave adjustment records. */
  function AdjustDetails(fullName: string, amount: real, reason: string, newBalance: real): map<string, DetailValue>
  {
    map["employee_name" := Text(fullName), "adjustment" := Number(amount),
        "reason" := Text(reason), "new_balance" := Number(newBalance)]
  }

  /** HR may only create employee and manager accounts; an admin may create any. */
  predicate HrMayCreate(creator: Role, requested: Role)
  {
    creator == Role.HR ==> requested in [Role.Employee, Role.Manager]
  }

  /** The employee creation request once every guard has passed. */
  function InsertEmployee(db: Db, caller: User, data: EmployeeCreate, passwordHash: string,
                          year: int, month: int): Outcome<EmployeeResponse>
  {
    var userId := db.nextId;
    var employeeId := db.nextId + 1;
    var user := User(userId, data.email, passwordHash, data.role, true);
    var employee := Employee.Employee(employeeId, userId, data.fullName, data.email, data.department,
                                      data.position, data.hireDate, data.phoneNumber,
                                      data.initialLeaveBalance, true, caller.id);
    var balance := LeaveBalance(data.initialLeaveBalance, 0.0, 0.0, data.initialLeaveBalance);
    var audit := AuditLog(caller.id, "CREATE_EMPLOYEE", "employee", employeeId,
                          CreateDetails(data.fullName, data.email));
    var db' := db.(users := db.users + [user],
                   employees := db.employees + [employee],
                   leaveBalances := db.leaveBalances[BalanceKey(employeeId, year, month) := balance],
                   sickDays := db.sickDays[SickKey(employeeId, year) := SickDays(0, SICK_DAYS_PER_YEAR)],
                   auditLogs := db.auditLogs + [audit],
                   nextId := db.nextId + 2);
    var response := EmployeeResponse(employeeId, data.fullName, data.email, data.department, data.position,
                                     data.hireDate, data.phoneNumber, data.initialLeaveBalance,
                                     0, SICK_DAYS_PER_YEAR);
    Outcome(Ok(response), db')
  }

  /**
   * POST /employees. Refused for callers outside admin and HR, for an e-mail
   * a user already has, and for HR asking for an admin or HR account; any
   * refusal leaves every table as it was. Success adds one user, one
   * employee pointing at it, an opening balance record and a sick-day record,
   * all for the new employee, and one audit entry.
   */
  function CreateEmployee(db: Db, caller: User, data: EmployeeCreate, passwordHash: string,
                          year: int, month: int): (out: Outcome<EmployeeResponse>)
    ensures out.result.Err? ==> out.db == db
    ensures out.result.Ok? <==>
      caller.role in ADMIN_HR && !EmailTaken(db.users, data.email) && HrMayCreate(caller.role, data.role)
    ensures caller.role !in ADMIN_HR ==> out.result == Err(AccessDenied(ADMIN_HR))
    ensures caller.role in ADMIN_HR && EmailTaken(db.users, data.email) ==> out.result == Err(EMAIL_EXISTS)
    ensures caller.role in ADMIN_HR && !EmailTaken(db.users, data.email) && !HrMayCreate(caller.role, data.role)
            ==> out.result == Err(HR_ROLE_LIMIT)
    ensures out.result.Ok? ==>
      var r := out.result.value;
      && |out.db.users| == |db.users| + 1 && out.db.users[..|db.users|] == db.users
      && |out.db.employees| == |db.employees| + 1 && out.db.employees[..|db.employees|] == db.employees
      && var user, employee := out.db.users[|db.users|], out.db.employees[|db.employees|];
      && user.email == data.email && user.role == data.role && user.passwordHash == passwordHash && user.isActive
      && employee.id == r.id && employee.userId == user.id && employee.email == data.email
      && employee.fullName == data.fullName && employee.department == data.department
      && employee.position == data.position && employee.hireDate == data.hireDate
      && employee.phoneNumber == data.phoneNumber
      && employee.initialLeaveBalance == data.initialLeaveBalance && employee.isActive
      && employee.createdBy == caller.id
      && out.db.leaveBalances == db.leaveBalances[BalanceKey(r.id, year, month) :=
           LeaveBalance(data.initialLeaveBalance, 0.0, 0.0, data.initialLeaveBalance)]
      && out.db.sickDays == db.sickDays[SickKey(r.id, year) := SickDays(0, SICK_DAYS_PER_YEAR)]
      && out.db.leaveAdjustments == db.leaveAdjustments
      && |out.db.auditLogs| == |db.auditLogs| + 1 && out.db.auditLogs[..|db.auditLogs|] == db.auditLogs
      && out.db.auditLogs[|db.auditLogs|] ==
           AuditLog(caller.id, "CREATE_EMPLOYEE", "employee", r.id, CreateDetails(data.fullName, data.email))
      && r == Respond(out.db, employee, year, month)
      && r.currentLeaveBalance == data.initialLeaveBalance
      && r.sickDaysUsed == 0 && r.sickDaysRemaining == SICK_DAYS_PER_YEAR
  {
    match RequireRole(caller, ADMIN_HR)
    case Err(e) => Outcome(Err(e), db)
    case Ok(_) =>
      if EmailTaken(db.users, data.email) then Outcome(Err(EMAIL_EXISTS), db)
      else if caller.role == Role.HR && data.role !in [Role.Employee, Role.Manager] then Outcome(Err(HR_ROLE_LIMIT), db)
      else InsertEmployee(db, caller, data, passwordHash, year, month)
  }

  /**
   * GET /employees. Readable by admin, HR and managers; lists the first
   * LIST_LIMIT active employees, each with this month's closing balance
   * (0.0 without a record) and the sick days left of the yearly three.
   */
  function GetEmployees(db: Db, caller: User, year: int, month: int): (r: Result<seq<EmployeeResponse>>)
    ensures r.Ok? <==> caller.role in ADMIN_HR_MANAGER
    ensures r.Err? ==> r.error == AccessDenied(ADMIN_HR_MANAGER)
    ensures r.Ok? ==> |r.value| <= LIST_LIMIT
    ensures r.Ok? ==> |r.value| == LIST_LIMIT || |r.value| == |ActiveOnly(db.employees)|
    ensures r.Ok? ==> forall k :: 0 <= k < |r.value| ==>
      k < |ActiveOnly(db.employees)| && r.value[k] == Respond(db, ActiveOnly(db.employees)[k], year, month)
    ensures r.Ok? && |r.value| < LIST_LIMIT ==>
      forall e :: e in db.employees && e.isActive ==> Respond(db, e, year, month) in r.value
    ensures r.Ok? && EmployeesValid(db) ==> forall k, l :: 0 <= k < l < |r.value| ==> r.value[k].id != r.value[l].id
  {
    match RequireRole(caller, ADMIN_HR_MANAGER)
    case Err(e) => Err(e)
    case Ok(_) =>
      var found := FindActive(db.employees, LIST_LIMIT);
      var views := Views(db, found, year, month);
      ViewsFollowActive(db, found, year, month);
      ViewsCoverFound(db, found, year, month);
      ViewsKeepDistinctIds(db, found, year, month);
      Ok(views)
  }

  /**
   * GET /employees/{id}. Readable by admin, HR and managers; 404 unless an
   * active employee has the id.
   */
  function GetEmployee(db: Db, caller: User, employeeId: Id, year: int, month: int): (r: Result<EmployeeResponse>)
    ensures r.Ok? <==> caller.role in ADMIN_HR_MANAGER &&
                       exists i :: 0 <= i < |db.employees| && db.employees[i].id == employeeId && db.employees[i].isActive
    ensures caller.role !in ADMIN_HR_MANAGER ==> r == Err(AccessDenied(ADMIN_HR_MANAGER))
    ensures caller.role in ADMIN_HR_MANAGER && r.Err? ==> r.error == EMPLOYEE_NOT_FOUND
    ensures r.Ok? ==>
      && r.value == Respond(db, FindActiveEmployee(db.employees, employeeId).value, year, month)
      && r.value.id == employeeId
      && r.value.currentLeaveBalance == CurrentBalance(db, employeeId, year, month)
      && r.value.sickDaysUsed == SickDaysUsed(db, employeeId, year)
      && r.value.sickDaysRemaining == SICK_DAYS_PER_YEAR - r.value.sickDaysUsed
  {
    match RequireRole(caller, ADMIN_HR_MANAGER)
    case Err(e) => Err(e)
    case Ok(_) =>
      match FindActiveEmployee(db.employees, employeeId)
      case None => Err(EMPLOYEE_NOT_FOUND)
      case Some(e) => Ok(Respond(db, e, year, month))
  }

  /**
   * The guards of leave adjustment, in the order they run: the role gate,
   * the amount (before any table is read), then an active employee with
   * the id.
   */
  function AdjustGuards(db: Db, caller: User, employeeId: Id, amount: real): (r: Result<Employee>)
    ensures r.Ok? <==> caller.role in ADMIN_HR && IsValidAdjustment(amount) &&
                       FindActiveEmployee(db.employees, employeeId).Some?
    ensures r.Ok? ==> r.value.id == employeeId && r.value.isActive && r.value in db.employees
    ensures caller.role !in ADMIN_HR ==> r == Err(AccessDenied(ADMIN_HR))
    ensures caller.role in ADMIN_HR && !IsValidAdjustment(amount) ==> r == Err(INVALID_AMOUNT)
    ensures caller.role in ADMIN_HR && IsValidAdjustment(amount) && r.Err? ==> r.error == EMPLOYEE_NOT_FOUND
  {
    match RequireRole(caller, ADMIN_HR)
    case Err(e) => Err(e)
    case Ok(_) =>
      if !IsValidAdjustment(amount) then Err(INVALID_AMOUNT)
      else match FindActiveEmployee(db.employees, employeeId)
        case None => Err(EMPLOYEE_NOT_FOUND)
        case Some(e) => Ok(e)
  }

  /** The update, log entry and audit entry of an adjustment, from the record the month starts with. */
  function ApplyAdjustment(db: Db, caller: User, employee: Employee, amount: real, reason: string,
                           year: int, month: int, record: LeaveBalance): Outcome<AdjustResponse>
  {
    var key := BalanceKey(employee.id, year, month);
    var newBalance := record.closingBalance + amount;
    var updated := record.(closingBalance := newBalance, hrAdjustments := record.hrAdjustments + amount);
    var audit := AuditLog(caller.id, "ADJUST_LEAVE_BALANCE", "employee", employee.id,
                          AdjustDetails(employee.fullName, amount, reason, newBalance));
    var db' := db.(leaveBalances := db.leaveBalances[key := updated],
                   leaveAdjustments := db.leaveAdjustments + [LeaveAdjustment(employee.id, amount, reason, caller.id)],
                   auditLogs := db.auditLogs + [audit]);
    Outcome(Ok(AdjustResponse(ADJUSTED_MESSAGE, newBalance, amount)), db')
  }

  /**
   * POST /leave/adjust/{id}, with the record a month without one starts
   * from being the zero record. Success moves this month's closing balance
   * and HR adjustments by the amount, touches no other balance record and
   * logs the adjustment once; any refusal leaves every table as it was.
   */
  function AdjustLeaveBalance(db: Db, caller: User, employeeId: Id, amount: real, reason: string,
                              year: int, month: int): (out: Outcome<AdjustResponse>)
    ensures out.result.Err? ==> out.db == db
    ensures caller.role !in ADMIN_HR ==> out.result == Err(AccessDenied(ADMIN_HR))
    ensures caller.role in ADMIN_HR && !IsValidAdjustment(amount) ==> out.result == Err(INVALID_AMOUNT)
    ensures caller.role in ADMIN_HR && IsValidAdjustment(amount) && FindActiveEmployee(db.employees, employeeId).None?
            ==> out.result == Err(EMPLOYEE_NOT_FOUND)
    ensures out.result.Ok? <==> caller.role in ADMIN_HR && IsValidAdjustment(amount) &&
                                FindActiveEmployee(db.employees, employeeId).Some?
    ensures out.result.Ok? ==>
      var key := BalanceKey(employeeId, year, month);
      var before := BalanceOrZero(db, key);
      && key in out.db.leaveBalances
      && var after := out.db.leaveBalances[key];
      && after.closingBalance == before.closingBalance + amount
      && after.hrAdjustments == before.hrAdjustments + amount
      && after.openingBalance == before.openingBalance && after.leaveTaken == before.leaveTaken
      && out.db.leaveBalances - {key} == db.leaveBalances - {key}
      && out.result.value.newBalance == after.closingBalance
      && out.result.value.adjustment == amount
      && (key !in db.leaveBalances ==> out.result.value.newBalance == amount)
      && out.db.leaveAdjustments == db.leaveAdjustments + [LeaveAdjustment(employeeId, amount, reason, caller.id)]
      && |out.db.auditLogs| == |db.auditLogs| + 1 && out.db.auditLogs[..|db.auditLogs|] == db.auditLogs
      && out.db.auditLogs[|db.auditLogs|] ==
           AuditLog(caller.id, "ADJUST_LEAVE_BALANCE", "employee", employeeId,
                    AdjustDetails(FindActiveEmployee(db.employees, employeeId).value.fullName, amount, reason,
                                  after.closingBalance))
      && out.db.users == db.users && out.db.employees == db.employees
      && out.db.sickDays == db.sickDays && out.db.nextId == db.nextId
  {
    match AdjustGuards(db, caller, employeeId, amount)
    case Err(e) => Outcome(Err(e), db)
    case Ok(employee) =>
      ApplyAdjustment(db, caller, employee, amount, reason, year, month,
                      BalanceOrZero(db, BalanceKey(employeeId, year, month)))
  }

  /**
   * Employee creation keeps the tables consistent, and the records it adds
   * are new: no earlier employee, balance record or sick-day record has the
   * new employee's id.
   */
  lemma CreateEmployeeKeepsValid(db: Db, caller: User, data: EmployeeCreate, passwordHash: string,
                                 year: int, month: int)
    requires Valid(db)
    ensures var out := CreateEmployee(db, caller, data, passwordHash, year, month);
      && Valid(out.db)
      && (out.result.Ok? ==>
            && BalanceKey(out.result.value.id, year, month) !in db.leaveBalances
            && SickKey(out.result.value.id, year) !in db.sickDays
            && forall i :: 0 <= i < |db.employees| ==> db.employees[i].id != out.result.value.id)
  {
  }

  /** Leave adjustment keeps the tables consistent, the ledger equation of every balance record included. */
  lemma AdjustLeaveBalanceKeepsValid(db: Db, caller: User, employeeId: Id, amount: real, reason: string,
                                     year: int, month: int)
    requires Valid(db)
    ensures Valid(AdjustLeaveBalance(db, caller, employeeId, amount, reason, year, month).db)
  {
  }

  /** The steps after the guards keep the tables consistent, for an employee the guards let through. */
  lemma ApplyAdjustmentKeepsValid(db: Db, caller: User, employee: Employee, amount: real, reason: string,
                                  year: int, month: int)
    requires Valid(db)
    requires AdjustGuards(db, caller, employee.id, amount) == Ok(employee)
    ensures Valid(ApplyAdjustment(db, caller, employee, amount, reason, year, month,
                                  BalanceOrZero(db, BalanceKey(employee.id, year, month))).db)
  {
    AdjustLeaveBalanceKeepsValid(db, caller, employee.id, amount, reason, year, month);
  }

  /**
   * POST /leave/adjust/{id}/body: the same role gate, then the adjustment
   * with the amount and reason taken from the request body.
   */
  function AdjustLeaveBalanceBody(db: Db, caller: User, employeeId: Id, request: LeaveAdjustmentRequest,
                                  year: int, month: int): (out: Outcome<AdjustResponse>)
    ensures out == AdjustLeaveBalance(db, caller, employeeId, request.adjustment, request.reason, year, month)
  {
    match RequireRole(caller, ADMIN_HR)
    case Err(e) => Outcome(Err(e), db)
    case Ok(user) => AdjustLeaveBalance(db, user, employeeId, request.adjustment, request.reason, year, month)
  }

  /**
   * Leave adjustment as the handler is written: when the month has no
   * record it inserts the zero record as a model object and then subscripts
   * that object, which raises TypeError; the request fails with 500 and the
   * inserted record stays behind without the adjustment.
   */
  function AdjustLeaveBalanceAsWritten(db: Db, caller: User, employeeId: Id, amount: real, reason: string,
                                       year: int, month: int): (out: Outcome<AdjustResponse>)
    ensures var key := BalanceKey(employeeId, year, month);
      AdjustGuards(db, caller, employeeId, amount).Ok? && key !in db.leaveBalances ==>
        out.result == Err(TYPE_ERROR) && out.db == db.(leaveBalances := db.leaveBalances[key := ZERO_BALANCE])
  {
    var key := BalanceKey(employeeId, year, month);
    match AdjustGuards(db, caller, employeeId, amount)
    case Err(e) => Outcome(Err(e), db)
    case Ok(employee) =>
      if key in db.leaveBalances then
        ApplyAdjustment(db, caller, employee, amount, reason, year, month, db.leaveBalances[key])
      else
        Outcome(Err(TYPE_ERROR), db.(leaveBalances := db.leaveBalances[key := ZERO_BALANCE]))
  }
}
