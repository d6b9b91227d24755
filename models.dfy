/**
 * The records the HR service stores and returns: users, employees, monthly
 * leave balances, yearly sick-day allowances, leave adjustments and audit
 * entries, and the response shapes of the employee and leave endpoints.
 *
 * Identifiers stand for the uuid4 strings of the service; timestamps
 * (created_at, last_login, last_reset) are not modelled, and a hire date is
 * an opaque number.
 */
module Models {

  type Id = nat
  type Timestamp = int

  datatype Role = Admin | HR | Manager | Employee

  datatype Department = IT | HR | Finance | Marketing | Operations | Sales

  /** Sick days every employee is allowed per year, and the figure the read endpoints subtract from. */
  const SICK_DAYS_PER_YEAR: int := 3

  /** The only amounts a leave adjustment may carry, in days. */
  predicate IsValidAdjustment(amount: real)
  {
    amount == 1.0 || amount == -1.0 || amount == 0.5 || amount == -0.5
  }

  datatype User = User(
    id: Id,
    email: string,
    passwordHash: string,
    role: Role,
    isActive: bool)

  datatype Employee = Employee(
    id: Id,
    userId: Id,
    fullName: string,
    email: string,
    department: Department,
    position: string,
    hireDate: Timestamp,
    phoneNumber: string,
    initialLeaveBalance: real,
    isActive: bool,
    createdBy: Id)

  /** The request body of employee creation. */
  datatype EmployeeCreate = EmployeeCreate(
    fullName: string,
    email: string,
    department: Department,
    position: string,
    hireDate: Timestamp,
    phoneNumber: string,
    initialLeaveBalance: real,
    password: string,
    role: Role)

  /** A leave-balance record is looked up by employee, year and month. */
  datatype BalanceKey = BalanceKey(employeeId: Id, year: int, month: int)

  datatype LeaveBalance = LeaveBalance(
    openingBalance: real,
    leaveTaken: real,
    hrAdjustments: real,
    closingBalance: real)

  /** A sick-day record is looked up by employee and year. */
  datatype SickKey = SickKey(employeeId: Id, year: int)

  datatype SickDays = SickDays(usedDays: int, totalAllowed: int)

  datatype LeaveAdjustment = LeaveAdjustment(
    employeeId: Id,
    adjustmentAmount: real,
    reason: string,
    adjustedBy: Id)

  /** A value in the free-form details of an audit entry. */
  datatype DetailValue = Text(text: string) | Number(number: real)

  datatype AuditLog = AuditLog(
    userId: Id,
    action: string,
    targetType: string,
    targetId: Id,
    details: map<string, DetailValue>)

  datatype EmployeeResponse = EmployeeResponse(
    id: Id,
    fullName: string,
    email: string,
    department: Department,
    position: string,
    hireDate: Timestamp,
    phoneNumber: string,
    currentLeaveBalance: real,
    sickDaysUsed: int,
    sickDaysRemaining: int)

  /** The request body of the /body variant of leave adjustment. */
  datatype LeaveAdjustmentRequest = LeaveAdjustmentRequest(adjustment: real, reason: string)

  /** The JSON object a successful leave adjustment returns. */
  datatype AdjustResponse = AdjustResponse(message: string, newBalance: real, adjustment: real)

  /**
   * A balance record whose closing figure is its opening figure less the
   * leave taken plus the HR adjustments: every record the service writes
   * keeps this shape.
   */
  predicate Balanced(b: LeaveBalance)
  {
    b.closingBalance == b.openingBalance - b.leaveTaken + b.hrAdjustments
  }
}
