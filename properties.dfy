/**
 * Properties that relate several requests: what one endpoint writes, the
 * others read back; adjustments add up and can be undone; the list and the
 * single-employee read agree; and the adjustment handler as written fails
 * on a month without a record.
 */
module Properties {
  import opened Http
  import opened Models
  import opened Auth
  import opened Tables
  import opened Endpoints

  /** Reading a newly created employee returns exactly what creation returned. */
  lemma CreateThenGet(db: Db, creator: User, data: EmployeeCreate, passwordHash: string,
                      year: int, month: int, reader: User)
    requires Valid(db)
    requires CreateEmployee(db, creator, data, passwordHash, year, month).result.Ok?
    requires reader.role in ADMIN_HR_MANAGER
    ensures var out := CreateEmployee(db, creator, data, passwordHash, year, month);
            GetEmployee(out.db, reader, out.result.value.id, year, month) == out.result
  {
    var out := CreateEmployee(db, creator, data, passwordHash, year, month);
    CreateEmployeeKeepsValid(db, creator, data, passwordHash, year, month);
    var e := out.db.employees[|db.employees|];
    assert out.db.employees == db.employees + [e];
    FindActiveEmployeeAppended(db.employees, e);
  }

  /** After an adjustment, reading the employee shows the balance the adjustment reported. */
  lemma AdjustThenGet(db: Db, caller: User, employeeId: Id, amount: real, reason: string,
                      year: int, month: int, reader: User)
    requires AdjustLeaveBalance(db, caller, employeeId, amount, reason, year, month).result.Ok?
    requires reader.role in ADMIN_HR_MANAGER
    ensures var out := AdjustLeaveBalance(db, caller, employeeId, amount, reason, year, month);
            var view := GetEmployee(out.db, reader, employeeId, year, month);
            view.Ok? && view.value.currentLeaveBalance == out.result.value.newBalance
  {
    var out := AdjustLeaveBalance(db, caller, employeeId, amount, reason, year, month);
    assert FindActiveEmployee(out.db.employees, employeeId).Some?;
  }

  /**
   * An adjustment followed by the opposite one restores this month's
   * record, or leaves the zero record if the month had none, while both
   * stay in the adjustment log.
   */
  lemma AdjustThenReverse(db: Db, caller: User, employeeId: Id, amount: real, reason: string,
                          undoReason: string, year: int, month: int)
    requires AdjustLeaveBalance(db, caller, employeeId, amount, reason, year, month).result.Ok?
    ensures var key := BalanceKey(employeeId, year, month);
            var first := AdjustLeaveBalance(db, caller, employeeId, amount, reason, year, month);
            var second := AdjustLeaveBalance(first.db, caller, employeeId, -amount, undoReason, year, month);
            && second.result.Ok?
            && second.result.value.newBalance == BalanceOrZero(db, key).closingBalance
            && second.db.leaveBalances == db.leaveBalances[key := BalanceOrZero(db, key)]
            && |second.db.leaveAdjustments| == |db.leaveAdjustments| + 2
  {
    var key := BalanceKey(employeeId, year, month);
    var first := AdjustLeaveBalance(db, caller, employeeId, amount, reason, year, month);
    var second := AdjustLeaveBalance(first.db, caller, employeeId, -amount, undoReason, year, month);
    assert second.result.Ok?;
    var b := BalanceOrZero(db, key);
    assert second.db.leaveBalances[key] == b;
    assert second.db.leaveBalances == db.leaveBalances[key := b];
  }

  /** Every employee in the list reads back, on its own, as the very same response. */
  lemma ListAgreesWithGet(db: Db, caller: User, year: int, month: int)
    requires Valid(db)
    requires GetEmployees(db, caller, year, month).Ok?
    ensures var list := GetEmployees(db, caller, year, month).value;
            forall k :: 0 <= k < |list| ==> GetEmployee(db, caller, list[k].id, year, month) == Ok(list[k])
  {
    var list := GetEmployees(db, caller, year, month).value;
    var found := FindActive(db.employees, LIST_LIMIT);
    assert list == Views(db, found, year, month);
    forall k | 0 <= k < |list|
      ensures GetEmployee(db, caller, list[k].id, year, month) == Ok(list[k])
    {
      assert found[k] in found;
      var i :| 0 <= i < |db.employees| && db.employees[i] == found[k];
      FindActiveEmployeeUnique(db.employees, i);
    }
  }

  /**
   * An amount outside the four allowed ones is refused the same way whatever
   * the tables hold and whichever employee is named: the check runs before
   * any lookup.
   */
  lemma InvalidAmountIgnoresTables(db1: Db, db2: Db, caller: User, id1: Id, id2: Id, amount: real,
                                   reason1: string, reason2: string, year: int, month: int)
    requires caller.role in ADMIN_HR && !IsValidAdjustment(amount)
    ensures var out1 := AdjustLeaveBalance(db1, caller, id1, amount, reason1, year, month);
            var out2 := AdjustLeaveBalance(db2, caller, id2, amount, reason2, year, month);
            out1.result == out2.result == Err(INVALID_AMOUNT) && out1.db == db1 && out2.db == db2
  {
  }

  /** The sum of a sequence of amounts. */
  function Sum(amounts: seq<real>): real
  {
    if |amounts| == 0 then 0.0 else amounts[0] + Sum(amounts[1..])
  }

  /** The tables after the same caller sends one adjustment request per amount, in order. */
  function AdjustAll(db: Db, caller: User, employeeId: Id, amounts: seq<real>, reason: string,
                     year: int, month: int): Db
    decreases |amounts|
  {
    if |amounts| == 0 then db
    else AdjustAll(AdjustLeaveBalance(db, caller, employeeId, amounts[0], reason, year, month).db,
                   caller, employeeId, amounts[1..], reason, year, month)
  }

  /**
   * Adjustment requests are not idempotent: every accepted request moves the
   * month's closing balance and HR adjustments by its amount, so a request
   * sent twice counts twice, and each one is logged.
   */
  lemma {:induction false} RepeatedAdjustmentsAddUp(db: Db, caller: User, employeeId: Id, amounts: seq<real>,
                                                    reason: string, year: int, month: int)
    requires caller.role in ADMIN_HR && FindActiveEmployee(db.employees, employeeId).Some?
    requires forall k :: 0 <= k < |amounts| ==> IsValidAdjustment(amounts[k])
    ensures var key := BalanceKey(employeeId, year, month);
            var after := AdjustAll(db, caller, employeeId, amounts, reason, year, month);
            && BalanceOrZero(after, key).closingBalance == BalanceOrZero(db, key).closingBalance + Sum(amounts)
            && BalanceOrZero(after, key).hrAdjustments == BalanceOrZero(db, key).hrAdjustments + Sum(amounts)
            && |after.leaveAdjustments| == |db.leaveAdjustments| + |amounts|
            && after.employees == db.employees
    decreases |amounts|
  {
    if |amounts| > 0 {
      var next := AdjustLeaveBalance(db, caller, employeeId, amounts[0], reason, year, month).db;
      assert next.employees == db.employees;
      RepeatedAdjustmentsAddUp(next, caller, employeeId, amounts[1..], reason, year, month);
    }
  }

  /**
   * The handler as written, on a month without a record: the request fails
   * with 500, the zero record it inserted stays, and nothing is logged,
   * where the evident intent answers with the amount as the new balance.
   */
  lemma AsWrittenFailsWithoutRecord(db: Db, caller: User, employeeId: Id, amount: real, reason: string,
                                    year: int, month: int)
    requires caller.role in ADMIN_HR && IsValidAdjustment(amount)
    requires FindActiveEmployee(db.employees, employeeId).Some?
    requires BalanceKey(employeeId, year, month) !in db.leaveBalances
    ensures var written := AdjustLeaveBalanceAsWritten(db, caller, employeeId, amount, reason, year, month);
            var intended := AdjustLeaveBalance(db, caller, employeeId, amount, reason, year, month);
            && written.result == Err(TYPE_ERROR)
            && written.db.leaveBalances[BalanceKey(employeeId, year, month)] == ZERO_BALANCE
            && written.db.leaveAdjustments == db.leaveAdjustments
            && intended.result.Ok? && intended.result.value.newBalance == amount
  {
  }

  /** When the month already has a record, the handler as written and the intended one agree. */
  lemma AsWrittenAgreesWithRecord(db: Db, caller: User, employeeId: Id, amount: real, reason: string,
                                  year: int, month: int)
    requires BalanceKey(employeeId, year, month) in db.leaveBalances
    ensures AdjustLeaveBalanceAsWritten(db, caller, employeeId, amount, reason, year, month)
            == AdjustLeaveBalance(db, caller, employeeId, amount, reason, year, month)
  {
  }
}
