# WaQteK HR rules in Dafny

This project models the domain rules of the WaQteK HR management API
(`backend/server.py`). The database is held in memory as users, employees,
monthly leave-balance records keyed by employee, year and month, yearly
sick-day records keyed by employee and year, a leave-adjustment log and an
audit log. Over these tables the model covers four things:

- the role gate every protected endpoint runs;
- employee creation with its duplicate-e-mail and HR-role guards;
- the two read endpoints, which project this month's closing balance and
  the sick days left out of three;
- manual leave adjustment by ±1 or ±0.5 days, in both its query-string
  form and its `/body` form.

The model is in two layers:

- `Endpoints` states each endpoint as a pure function. It takes the
  database before the request and gives the response and the database
  after it.
- `Service.HrService` is a class whose fields are the collections. Its
  methods run each request step by step, in the handlers' order, and are
  proved to produce exactly what the `Endpoints` function gives.

One step differs from the handler on purpose. When an adjustment targets a
month with no balance record, `backend/server.py:427-439` fails with 500;
both `Endpoints.AdjustLeaveBalance` and `Service.HrService.AdjustLeaveBalance`
instead start from a zero record, which is what the handler evidently
intends. The handler's actual behaviour is modelled separately as
`Endpoints.AdjustLeaveBalanceAsWritten`; see "## Findings".

`Tables.Valid` is the consistency the service keeps:

- user ids are distinct among users, employee ids are distinct among
  employees, and no user shares an id with an employee, since both come
  from one counter;
- e-mail addresses identify users;
- every balance record satisfies closing = opening − leave taken + HR
  adjustments;
- sick-day records stay within the three-day allowance.

`Properties` proves facts that span several requests.

Inputs that stand in for what the handlers read from outside:

- The caller is the user the bearer token resolved to.
- The current `(year, month)` replaces `datetime.utcnow()`.
- The bcrypt hash of the new password is a parameter.
- Fresh ids come from a counter in the database value (`nextId`) instead
  of uuid4.

Leave amounts are `real`.

Two rules of the web client are not server rules, and the model follows
the server:

- The web client shows available leave as 2 × months worked − leave taken.
  The server has no accrual: a balance moves only through creation and
  adjustment.
- The web client sends an adjustment only when its reason, trimmed, is
  non-empty. The server stores whatever reason it is sent, the empty one
  included.

The web client is not part of this model.

## Model

| member | source | states |
|---|---|---|
| Auth.RequireRole | backend/server.py:185-193 | a caller passes the gate exactly when its role is in the endpoint's list, and the gate hands the caller through unchanged; otherwise 403 "Access denied. Required roles: …" |
| Auth.GateMembership | backend/server.py:246-249 | creation and adjustment (lines 249, 408, 486) admit exactly admin and HR; both reads (lines 323, 365) admit everyone but plain employees |
| Tables.FindActiveEmployee | backend/server.py:367-369 | the lookup by id and `is_active` finds an active employee with that id, and finds nothing exactly when no stored employee with that id is active |
| Tables.FindActive | backend/server.py:325 | the listing query with `to_list(1000)`: the first min(1000, number of active) active employees, in stored order, so a prefix of `ActiveOnly`; nothing comes back that is not stored and active, no employee comes back more often than it is stored, and distinct stored ids stay distinct |
| Tables.Respond | backend/server.py:330-358 | a response copies the employee's id, name, e-mail, department, position, hire date and phone; it carries this month's closing balance (0.0 without a record) and this year's sick days used (0 without a record); used plus remaining sick days is 3; on consistent tables both lie in 0..3 |
| Tables.ActiveOnly | backend/server.py:325 | the employees the listing query matches: exactly the stored active ones, none more often than stored |
| Tables.ActiveOnlyKeepsDistinctIds | backend/server.py:325 | when stored ids are distinct, the matched employees' ids are distinct too |
| Tables.ViewsFollowActive | backend/server.py:325-358 | the k-th listed response is the projection of the k-th active employee, which is stored and active |
| Tables.ViewsCoverFound | backend/server.py:328-358 | every employee the query found has its projection in the list |
| Tables.ViewsKeepDistinctIds | backend/server.py:347-348 | each response carries its employee's id, so distinct ids among the found employees stay distinct in the list |
| Tables.FindActiveEmployeeUnique | backend/server.py:367 | with unique ids, looking up the id of an active stored employee finds that employee |
| Tables.FindActiveEmployeeAppended | backend/server.py:280 | an inserted active employee whose id nobody else has is what a lookup of its id finds |
| Endpoints.CreateEmployee | backend/server.py:246-319 | succeeds iff the caller is admin or HR, no user has the e-mail and HR is not asking for an admin or HR account. Each refusal has its own error (403, 400, 403) and changes no table. Success appends one user (the request's e-mail and role, the given hash, active) and one employee pointing at it, carrying the request's name, e-mail, department, position, hire date, phone and initial balance, active and created by the caller. It adds the opening balance record (opening = closing = initial balance) and a 0-of-3 sick-day record for the new id. It appends one audit entry by the caller: CREATE_EMPLOYEE on the employee with the new id, with the name and e-mail as details. The response is what a read of the new employee shows: the initial balance, 0 used and 3 remaining |
| Endpoints.CreateEmployeeKeepsValid | backend/server.py:251-298 | creation keeps the tables consistent; the new employee's id, balance key and sick-day key were all unused |
| Endpoints.GetEmployees | backend/server.py:321-360 | 403 unless admin, HR or manager. Otherwise the k-th response is the projection of the k-th active stored employee, and the list stops at 1000 or at the last active employee. Every active employee is present when the list is under the cap. On consistent tables no id appears twice |
| Endpoints.GetEmployee | backend/server.py:362-400 | succeeds iff the caller may read and some stored employee with the id is active, else 403 or 404. The response is the projection of the first active employee with the id: its id and details, this month's closing balance (0.0 without a record), the sick days used (0 without a record) and 3 − used remaining |
| Endpoints.AdjustGuards | backend/server.py:410-417 | in this order: 403 outside admin and HR, 400 for an amount not in {1, −1, 0.5, −0.5}, 404 without an active employee with the id |
| Endpoints.AdjustLeaveBalance | backend/server.py:403-476 | succeeds iff all guards pass; a refusal changes nothing. Success moves closing balance and HR adjustments of this month's record (the zero record when there was none) by the amount. Opening balance, leave taken and every other record stay as they were. One adjustment by the caller is appended. One audit entry by the caller is appended: ADJUST_LEAVE_BALANCE on the employee, with the employee's name, the amount, the reason and the new balance as details. The reported new balance is the new closing balance, and it equals the amount when the month had no record |
| Endpoints.AdjustLeaveBalanceKeepsValid | backend/server.py:419-448 | adjustment keeps the tables consistent, the ledger equation of every balance record included |
| Endpoints.ApplyAdjustmentKeepsValid | backend/server.py:419-470 | the steps after the guards, for the employee the guards let through, keep the tables consistent |
| Endpoints.AdjustLeaveBalanceBody | backend/server.py:482-488 | the body form answers and writes exactly what the query form does with the body's amount and reason |
| Endpoints.AdjustLeaveBalanceAsWritten | backend/server.py:427-439 | as written, a month without a record gets the zero record inserted and then the request fails with 500 |
| Service.HrService.CreateEmployee | backend/server.py:246-319 | the handler's sequence of inserts leaves the tables and the response exactly as Endpoints.CreateEmployee says, and keeps them consistent |
| Service.HrService.GetEmployees | backend/server.py:321-360 | the loop that builds one response per listed employee returns exactly Endpoints.GetEmployees; it changes no table |
| Service.HrService.GetEmployee | backend/server.py:362-400 | returns exactly Endpoints.GetEmployee and changes no table |
| Service.HrService.AdjustLeaveBalance | backend/server.py:403-476 | the guards, get-or-create, update and two log appends leave the tables and the response exactly as Endpoints.AdjustLeaveBalance says, and keep them consistent |
| Service.HrService.ApplyAdjustment | backend/server.py:419-476 | on consistent tables and for the employee the guards let through, the steps after the guards move this month's record (created as zero if missing) by the amount, append the two log entries, and keep the tables consistent |
| Service.HrService.AdjustLeaveBalanceBody | backend/server.py:482-488 | gates, then delegates; the result is exactly Endpoints.AdjustLeaveBalanceBody |
| Properties.CreateThenGet | backend/server.py:260-319 | reading a newly created employee returns exactly the response creation returned |
| Properties.AdjustThenGet | backend/server.py:472-476 | after an adjustment, the employee reads back with the reported new balance |
| Properties.AdjustThenReverse | backend/server.py:438-448 | an adjustment followed by its opposite restores the month's record (or leaves the zero record); both stay in the log |
| Properties.ListAgreesWithGet | backend/server.py:325-360 | on consistent tables, every listed response is what reading its id alone returns |
| Properties.InvalidAmountIgnoresTables | backend/server.py:410-412 | a bad amount is refused with the same 400 whatever the tables and employee id, and nothing changes |
| Properties.RepeatedAdjustmentsAddUp | backend/server.py:439-457 | requests are not idempotent: a run of accepted adjustments moves closing balance and HR adjustments by their sum and logs each one |
| Properties.AsWrittenFailsWithoutRecord | backend/server.py:427-439 | on a month without a record the handler as written answers 500, leaves the zero record and logs nothing, where the intended handler reports the amount as the new balance |
| Properties.AsWrittenAgreesWithRecord | backend/server.py:421-448 | when the month has a record, the handler as written and the intended one behave identically |

## Left out

- Authentication: `login`, `get_current_user`, `/auth/me`, JWT encoding and decoding, and bcrypt hashing and verification rely on foreign libraries. The caller is an input, and the stored password hash is an input. `login`'s refusal of inactive accounts (backend/server.py:215-219) is not modelled. `get_current_user` does not check `is_active`, so the model's gates do not consult the caller's `isActive` either.
- `/health`, CORS, logging and server start-up have no domain rules.
- Timestamps (`created_at`, `last_login`, `last_reset`, the audit `timestamp`) are not modelled. The clock is reduced to the `(year, month)` input.
- The ids of balance, sick-day, adjustment and audit records are not modelled. Balance and sick-day records are addressed by their key; the handlers never store two records under one key.
- Request validation by pydantic (e-mail syntax, department names, numeric parsing) is not modelled. It answers 422 before a handler runs.
- Floating point: amounts and balances are exact `real`s, so rounding of large float balances is not modelled.
- Concurrency and partial failure: each handler is one atomic step. An insert that fails halfway through creation is not modelled. The ledger equation holds only because of this atomicity. The handler `$set`s the closing balance from a value it read earlier but `$inc`s the HR adjustments (backend/server.py:421-448). So two concurrent +1 requests can move the closing balance by 1 and the HR adjustments by 2.
- The seeding script `backend/init_data.py` is not part of this model. The service starts from any consistent database.
- Sick days: no endpoint changes `used_days`. The reads subtract from the literal 3, not from the stored `total_allowed`, and the model does the same.

## Findings

| source | as written | input that shows it | evidently intended | confidence | as-written member | corrected member |
|---|---|---|---|---|---|---|
| backend/server.py:427-439 | without a record for the month, the handler inserts a new `LeaveBalance` model and then subscripts it (`leave_balance["closing_balance"]`), which raises TypeError. The request fails with 500, the zero record stays, and no adjustment or audit entry is written | an admin adjusts an active employee by 1.0 in a month with no balance record for them, e.g. any month after the one they were created in | start from a zero record and report the amount as the new balance | high; not executed | Endpoints.AdjustLeaveBalanceAsWritten, Properties.AsWrittenFailsWithoutRecord | Endpoints.AdjustLeaveBalance |
