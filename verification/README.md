# ARIS3 cash drawer, vouchers and OpenAPI hardening: a Dafny model

ARIS3 is a retail back end. This project models four of its parts and proves what they promise:

1. **The cash drawer** (`app/aris3/routers/pos_cash.py`): cash sessions, the append-only movement
   ledger, cash cuts and day closes. The same money is kept three times: as a running balance on the
   session, as a day rollup grouped by action, and as a cut quote over a time window. The proofs show
   that the three agree in every reachable state and that a closed day never moves again.
2. **Vouchers** (`app/aris3/routers/pos_advances.py`, `app/aris3/services/pos_advances.py`): issue,
   refund, consumption, lazy expiry and expiry sweeps, on top of the same cash tables.
3. **OpenAPI references** (`app/aris3/openapi.py`, `app/aris3/openapi_validation.py`): the JSON Pointer
   decoder, the reference walk, and the in-place hardening that removes a component and must leave
   every reference resolvable.
4. **Small checks**: the interpolated percentile of the load probe, the stale-open repair migration,
   and two integrity checks.

## Layout

| files | content |
|---|---|
| `Common.dfy`, `Text.dfy` | options, results, sums over table rows, numerals |
| `CashModel.dfy` | tables, requests, and for each request the tables it leaves (`Step`) |
| `CashInvariants.dfy` | the mutually dependent invariants and the proof that every request keeps them |
| `CashTheorems.dfy`, `CashQuotes.dfy`, `CashCuts.dfy` | theorems over whole runs |
| `CashRollup.dfy`, `CashSales.dfy` | the accumulation loops of the rollup and of the quote |
| `CashLaws.dfy`, `CutLaws.dfy` | what each request means, row by row: when it is accepted, with which error it is refused, and everything it leaves |
| `CashExamples.dfy` | concrete runs and states at which a promise fails |
| `CashDesk.dfy` | the router itself: row objects whose fields the handlers assign, proved to do what `CashModel` says |
| `CashRepair.dfy` | the repair migration and the open-session check |
| `VoucherModel.dfy`, `VoucherInvariants.dfy`, `VoucherTheorems.dfy`, `VoucherLaws.dfy`, `VoucherDesk.dfy` | the same layers for vouchers |
| `Json.dfy`, `JsonPointer.dfy`, `RefWalk.dfy` | JSON values, local references, the walk |
| `OpenApi.dfy`, `OpenApiHardener.dfy` | the hardening phases as functions and as the loops that run |
| `OpenApiClosure.dfy`, `OpenApiTheorems.dfy`, `OpenApiEdits.dfy` | closure: what the phases add, what suffices, and the exact condition on the generated document |
| `OpenApiLaws.dfy` | which response, parameter and component of a document becomes what |
| `Discriminators.dfy`, `DuplicateEpc.dfy`, `Percentile.dfy` | three smaller algorithms |

`dafny verify dfyconfig.toml` checks everything.

## How requests are modelled

- Requests run one after the other. A refused request (`Err`) leaves all tables as they were, because
  the database session closes without a commit (`app/aris3/db/session.py:35-40`). This includes the lazy
  expiry written by a refused voucher action.
- The clock never runs back. A handler gets one reading, except cut creation (window, then row) and
  voucher action and lookup (expiry check, then row), which get two; `close_day` reads the clock once
  per forced session and once for the record, modelled as one reading.
- Money is an integer number of the smallest unit. The code stores floats and reads them back through
  decimal strings.
- Row identifiers are positions in the append-only tables. Tenant, store, cashier and role are
  parameters of a request; the checks that derive them from a token are not modelled.
- `Inv(db, clock)` is the cash invariant: status OPEN exactly when `closed_at` is null, no OPEN session on
  a day with a CLOSED close record, at most one OPEN session per drawer (`Safe`); every movement starts
  from its session's balance, moves it by its signed amount and leaves it at or above zero (`Ledger`);
  stored day-close totals equal the day's rollup (`ClosesKept`); cut numbers count up per session over
  non-empty windows (`Numbered`); nothing is stamped later than the clock (`Past`).
- `SystemInv` adds the vouchers: numbers in sequence, barcodes of those numbers, status equal to the replay
  of the event log, movements and columns telling the same totals, and on every consumption applied +
  remaining = sale total.

- The files named `Laws` speak of `Step`, or of `After` and `Answer`, and of nothing else the model computes with:
  sessions are chosen by comparing rows (`IsCurrent`, `IsActive`, `IsTill`), money is added up anew (`DayTotal`, `PostedUpTo`,
  `Takings`), numbers are read back from their digits (`ValueOf`). The methods of the desks are proved to do what `Step`,
  `After` and `Answer` say, so the laws hold of them too.

## Findings

Each names the exact condition and, in brackets, a lemma with an input at which the promise fails.

- `OpenKeepsOneIffNoStale` [`OpenBesideStale`]: opening looks for an open session with a day-close filter, so it leaves
  two OPEN sessions exactly when a stale open session on a closed day exists. The repair migration
  establishes the missing invariant, and every request then keeps it.
- `ClosedMovedIffAppliedOnIt` [`AppliedOnClosedDay`]: over every request, and with no invariant but that cuts belong to
  their sessions, an accepted request moves the rollup of a closed day if and only if it is an APPLY_CASH_OUT on a cut of a
  session of that closed day. Such a session must be open; `ReachableSafe` shows there is none in any reachable
  state, and the repair migration removes those of older data.
- `QuoteIsSignedSum`, `CutMeasuresDrawer` [`QuoteOffByColleaguesSale`]: a quote counts paid cash sales of the store, a session
  counts its own SALE movements; the quote is off by exactly that gap and by nothing else.
- `StoredTotalsExact` [`BoundaryCountedTwice`]: chained cuts include both ends of their windows, so a movement stamped exactly
  at an inner boundary is counted twice; the stored totals of a session add up if and only if there is none.
- `LateStampIffBetweenReadings` [`LateStampHappens`]: a voucher action reads the clock twice. In every run, a consumed or
  refunded voucher is stamped at or after its expiry if and only if the action that ended it checked the expiry before it
  passed and read the clock again after.
- `ClosedIffAllRewritten` [`SharedBodyFails`]: the hardened form of a closed document passes the reference check if and only
  if every place that refers to `HTTPValidationError` is one that hardening rewrites.
- `ClashIffSamePrefix` [`ClashHappens`]: barcodes hold only the first eight digits of the store, so an issue is refused by
  the unique constraint if and only if another store of the tenant with the same first digits has a voucher with the next number.

## Model

| member | source | states |
|---|---|---|
| CashInvariants.StepKeeps | app/aris3/routers/pos_cash.py:601-867 | every accepted request of the cash, sales and voucher routers keeps the whole cash invariant |
| CashInvariants.OpenKeeps | app/aris3/routers/pos_cash.py:636-739 | an accepted OPEN keeps the invariant: never a second open session of the drawer, never one on a closed day, its OPEN movement balanced from 0 |
| CashInvariants.PostKeepsCloses | app/aris3/routers/pos_cash.py:193-215 | a posting on an open session cannot touch the rollup of any closed day |
| CashInvariants.NeutralMovementKeeps | app/aris3/routers/pos_cash.py:77-96 | DAY_CLOSE and card or transfer voucher movements keep the invariant and leave every rollup unchanged |
| CashInvariants.CreateCutKeeps | app/aris3/routers/pos_cash.py:959-1064 | a saved cut, with or without its deposit, keeps balances, rollups and the numbering of cuts |
| CashInvariants.ActOnCutKeeps | app/aris3/routers/pos_cash.py:1134-1186 | VOID, COMPLETE, PRINT_MARK and APPLY_CASH_OUT keep the invariant, the last without any day-close check |
| CashInvariants.CloseDayKeeps | app/aris3/routers/pos_cash.py:1228-1335 | closing a day, forced or not, keeps the invariant; its stored totals are the rollup it froze |
| CashInvariants.LastNumber | app/aris3/routers/pos_cash.py:376-393 | in a numbered table the last cut of a session carries the number of its cuts |
| CashTheorems.RunKeeps | app/aris3/routers/pos_cash.py:601-1335 | the invariant holds after every run of requests served in clock order |
| CashTheorems.ReachableSafe | app/aris3/routers/pos_cash.py:601-1335 | from empty tables every reachable state satisfies it: one open session per drawer, none on a closed day, OPEN exactly when closed_at is null |
| CashTheorems.ClosedDayFrozen | app/aris3/routers/pos_cash.py:1152-1183 | once a close is recorded no run changes the rollup of its day nor the record, so its stored totals stay equal to the rollup for ever |
| CashTheorems.ClosedDaySessionsFrozen | app/aris3/routers/pos_cash.py:1245-1278 | no run changes any column of a session of a closed day |
| CashTheorems.RunKeepsCloseRecords | app/aris3/routers/pos_cash.py:1291-1312 | day-close records are only ever appended |
| CashTheorems.RollupIsDayBalance | app/aris3/routers/pos_cash.py:218-262 | grouping by category and summing the balances of the sessions give the same money |
| CashTheorems.RollupIsSessions | app/aris3/routers/pos_cash.py:218-262 | in every reachable state the expected cash of a day rollup equals the sum of expected_cash over the sessions of the day |
| CashTheorems.UnbrokenChain | app/aris3/routers/pos_cash.py:321-334 | between consecutive movements of a session after-balance equals before-balance; the first starts at 0, the last ends at expected_cash, each step is the signed amount, none is negative |
| CashTheorems.LookupsAgree | app/aris3/routers/pos_cash.py:265-318 | in every reachable state the filtered lookup, the unfiltered one, the sales one and the one with an explicit id give the same session or none |
| CashTheorems.OpenKeepsOneIffNoStale | app/aris3/routers/pos_cash.py:643-661 | an accepted OPEN leaves one open session of the drawer if and only if it had no stale open one |
| CashTheorems.ClosedMovedIffAppliedOnIt | app/aris3/routers/pos_cash.py:1152-1183 | over every request: an accepted one moves the rollup of a closed day if and only if it is an APPLY_CASH_OUT on a cut of a session of that day |
| CashExamples.AppliedOnClosedDay | app/aris3/routers/pos_cash.py:1152-1183 | a state with a stale open session in which an accepted APPLY_CASH_OUT leaves the stored totals different from the rollup |
| CashTheorems.ApplyMovesRollup | app/aris3/routers/pos_cash.py:1152-1183 | an accepted APPLY_CASH_OUT lowers the rollup of its session by the amount |
| CashQuotes.WindowsCover | app/aris3/routers/pos_cash.py:411-484 | before-window and in-window totals of the four actions together are the signed sum up to the end of the window |
| CashQuotes.QuoteIsSignedSum | app/aris3/routers/pos_cash.py:396-521 | the quote is opening plus the signed movements up to to_at plus the gap between cash sales and SALE movements; the window start cancels out |
| CashQuotes.BalanceIsSignedSum | app/aris3/routers/pos_cash.py:759-835 | the running balance is the signed sum of the movements of the session |
| CashQuotes.QuoteIsExpectedCash | app/aris3/routers/pos_cash.py:396-521 | a quote past the last movement is expected_cash plus the same gap |
| CashQuotes.CloseMeasuresDrawer | app/aris3/routers/pos_cash.py:784-812 | an accepted CLOSE measures the count against the signed sum of everything posted on the session, whose balance it keeps, and leaves the drawer without an open session |
| CashQuotes.DayCloseMeasuresSessions | app/aris3/routers/pos_cash.py:1280-1310 | the difference of a day close is the count less the expected cash of all sessions of the day; OVER, SHORT and EVEN name its sign |
| CashQuotes.CutMeasuresDrawer | app/aris3/routers/pos_cash.py:959-1064 | a cut up to now records the drawer as it stands plus the gap, its difference is measured against it, and its deposit lowers expected_cash by the amount |
| CashCuts.DefaultCutsChain | app/aris3/routers/pos_cash.py:376-393 | for a session cut with default windows only, whatever happens to other sessions: numbers 1..n, each from_at the previous to_at or opened_at, to_at strictly later and never past the clock |
| CashCuts.RunExplained | app/aris3/routers/pos_cash.py:468-490 | after any run the cuts of a session taken with default windows still record exactly what their windows held when they were taken |
| CashCuts.CutsAddUp | app/aris3/routers/pos_cash.py:468-490 | stored CASH_IN, CASH_OUT or refund totals of the cuts are the coverage of the session plus what sits on inner boundaries |
| CashCuts.DoubledIffHit | app/aris3/routers/pos_cash.py:411-412 | nothing is counted twice if and only if no such movement falls on an inner boundary |
| CashCuts.StoredTotalsExact | app/aris3/routers/pos_cash.py:376-393 | in every run the stored totals of a session cut with default windows add up to its whole total at its last cut if and only if no movement falls on an inner boundary |
| CashLaws.LookupIsCurrent | app/aris3/routers/pos_cash.py:265-288 | the lookup finds exactly the running session of the drawer that was opened last among those whose day has no CLOSED record, and nothing exactly when there is none |
| CashLaws.LookupIsActive | app/aris3/routers/pos_advances.py:169-184 | the lookup of the voucher router is the same without regard to closed days |
| CashLaws.LookupIsTill | app/aris3/routers/pos_sales.py:692-769 | the session of a sale is the first open one of the cashier, or else the only open one of the store |
| CashLaws.RollupLaw | app/aris3/routers/pos_cash.py:218-262 | which raw actions each line of the rollup adds up: OPEN and OPENING, CASH_IN, CASH_OUT, SALE and SALE_CASH_IN, CASH_OUT_REFUND |
| CashLaws.OpenAccepted | app/aris3/routers/pos_cash.py:636-661 | OPEN is accepted if and only if amount, date and timezone are given, the day has no close record and no session of the drawer is waiting; otherwise VALIDATION_ERROR, or BUSINESS_CONFLICT for the last |
| CashLaws.OpenEffect | app/aris3/routers/pos_cash.py:663-711 | it adds one session and one OPEN movement from 0 to the amount, raises the opening line of its day by it, and changes no other row, line or day |
| CashLaws.MovesAccepted | app/aris3/routers/pos_cash.py:740-783 | CASH_IN and CASH_OUT are accepted if and only if the drawer has a current session, its day no close record and the amount is positive, for CASH_OUT also no more than the session holds |
| CashLaws.NoCurrentSession | app/aris3/routers/pos_cash.py:740-751 | without a current session CASH_IN, CASH_OUT and CLOSE are refused with BUSINESS_CONFLICT |
| CashLaws.CashInLaw | app/aris3/routers/pos_cash.py:763-772 | an accepted CASH_IN raises expected_cash of the current session by the amount, adds one CASH_IN movement of it with both balances, and changes no other row |
| CashLaws.CashOutLaw | app/aris3/routers/pos_cash.py:773-783 | an accepted CASH_OUT lowers expected_cash by the amount, adds one CASH_OUT movement of it with both balances, and changes no other row; any refusal is VALIDATION_ERROR |
| CashLaws.CashInInRollup | app/aris3/routers/pos_cash.py:218-262 | it raises the cash-in line of the day of its session by the amount and no other line of any day |
| CashLaws.CashOutInRollup | app/aris3/routers/pos_cash.py:218-262 | likewise the cash-out line |
| CashLaws.CloseLaw | app/aris3/routers/pos_cash.py:784-835 | CLOSE needs a count; it closes the current session with the count, the difference to expected_cash and the time, keeps its expected_cash, and adds a zero CLOSE movement |
| CashLaws.SaleCashLaw | app/aris3/routers/pos_sales.py:364-430 | sale cash is recorded if and only if it is positive, the day has no close record and the balance stays at or above zero; it moves the till by a SALE or CASH_OUT_REFUND movement and nothing else |
| CashLaws.VoucherCashLaw | app/aris3/routers/pos_sales.py:364-430 | the same for a cash voucher on the active session, as CASH_IN or CASH_OUT |
| CashLaws.NoTill | app/aris3/routers/pos_sales.py:692-769 | without a session of that kind both are refused with BUSINESS_CONFLICT |
| CashLaws.PostVoucherLaw | app/aris3/routers/pos_advances.py:187-225 | a card or transfer voucher adds one movement without a session and moves no balance and no rollup |
| CashLaws.CloseDayAccepted | app/aris3/routers/pos_cash.py:1228-1275 | a day is closed if and only if it has no record and no session of it is OPEN, or force, one of the four roles and a reason are given; PERMISSION_DENIED for the role, VALIDATION_ERROR for everything else |
| CashLaws.CloseDayWrites | app/aris3/routers/pos_cash.py:1280-1330 | it adds the record with force flag, reason, the five totals of the day, the count and its difference to opening + in + sales - out - refunds with the name of its sign, and one zero DAY_CLOSE movement |
| CashLaws.CloseDaySessions | app/aris3/routers/pos_cash.py:1245-1278 | it closes exactly the OPEN sessions of the day, at the time of the request; without force every session row stays |
| CutLaws.SalesLaw | app/aris3/routers/pos_cash.py:414-462 | the six sales columns: per tender, over the paid sales of the store checked out within the window, ends included, and over those of several payments |
| CutLaws.QuoteMeasures | app/aris3/routers/pos_cash.py:411-490 | opening is the opening amount and the movements from opened_at to before from_at; cash in, cash out and refunds those from from_at to to_at, ends included |
| CutLaws.CutAccepted | app/aris3/routers/pos_cash.py:972-1040 | a cut of the chosen session is accepted if and only if its day has no close record, from_at is before to_at and a deposit to apply is no more than expected_cash; otherwise VALIDATION_ERROR |
| CutLaws.NoneChosen | app/aris3/routers/pos_cash.py:972-981 | without such a session it is refused with BUSINESS_CONFLICT |
| CutLaws.CutEffect | app/aris3/routers/pos_cash.py:1000-1064 | it adds one cut: next number, window from the request, the last cut or the opening, the quote over it, the difference to its count, COMPLETED or OPEN; a deposit adds the one CASH_OUT the cut is linked to |
| CutLaws.VoidLaw | app/aris3/routers/pos_cash.py:1134-1135 | VOID sets the status of the cut and no other column of any row; PRINT_MARK changes none |
| CutLaws.CompleteLaw | app/aris3/routers/pos_cash.py:1136-1149 | COMPLETE needs a count; difference plus opening + sales + in - out - refunds is the count, status COMPLETED, counted and completed_at those of the request, every other row and column as before |
| CutLaws.CountedNowOrLater | app/aris3/routers/pos_cash.py:337-339 | completing a cut with a count finds the difference that creating it with that count would have found |
| CutLaws.ApplyLaw | app/aris3/routers/pos_cash.py:1152-1183 | APPLY_CASH_OUT takes a positive amount its open session holds out of it by one CASH_OUT movement and links the cut to it; BUSINESS_CONFLICT for a closed session, VALIDATION_ERROR for the amount |
| CutLaws.UnknownCut | app/aris3/routers/pos_cash.py:1130-1132 | an action on a cut that is not in the store is refused with RESOURCE_NOT_FOUND |
| CashExamples.BoundaryCountedTwice | app/aris3/routers/pos_cash.py:376-393 | a run of four requests after which two default cuts store 5 of CASH_IN each although 5 came in |
| CashExamples.QuoteOffByColleaguesSale | app/aris3/routers/pos_cash.py:414-462 | a run of three requests after which a quote says 17 and the balance of the session 10 |
| CashExamples.OpenBesideStale | app/aris3/routers/pos_cash.py:643-661 | a state in which an accepted OPEN leaves two open sessions of the drawer |
| CashRollup.ReconciliationRollup | app/aris3/routers/pos_cash.py:218-262 | the accumulation loop over the groups gives the category totals of the day whatever the order of the groups, and the counts |
| CashRollup.AccumulateGroups | app/aris3/routers/pos_cash.py:232-255 | per reconciled category the sum of its groups, and for every category their count |
| CashRollup.GroupsAreRollup | app/aris3/routers/pos_cash.py:218-243 | group-by-action, normalised and summed, equals the sum over the movements of the category |
| CashSales.AddUp | app/aris3/routers/pos_cash.py:436-462 | the loop over the sale rows adds cash, card and transfer, and separately those of sales with several payments |
| CashSales.SalesLoop | app/aris3/routers/pos_cash.py:414-462 | the totals are those of the payments of the paid sales in the window |
| CashDesk.Desk.SessionAction | app/aris3/routers/pos_cash.py:601-867 | the handler leaves the tables and the error the specification gives, dispatching on the action |
| CashDesk.Desk.OpenSession | app/aris3/routers/pos_cash.py:636-739 | in place: adds session and movement, or refuses for a closed day, an open session or bad input |
| CashDesk.Desk.CashIn | app/aris3/routers/pos_cash.py:763-772 | in place: raises expected_cash and appends the movement |
| CashDesk.Desk.CashOut | app/aris3/routers/pos_cash.py:773-783 | in place: lowers expected_cash unless it would become negative |
| CashDesk.Desk.CloseSession | app/aris3/routers/pos_cash.py:784-812 | in place: counts and closes the session and appends a CLOSE movement of 0 |
| CashDesk.Desk.RecordMovement | app/aris3/routers/pos_sales.py:364-430 | the movement of sales, returns and cash vouchers: refused on a closed day or below zero |
| CashDesk.Desk.QuoteFigures | app/aris3/routers/pos_cash.py:396-521 | computes the figures of a quote from the tables |
| CashDesk.Desk.CreateCut | app/aris3/routers/pos_cash.py:959-1064 | checks, window, quote, cut and optional deposit; a refused deposit rolls the cut back |
| CashDesk.Desk.CutAction | app/aris3/routers/pos_cash.py:1117-1187 | in place: the four cut actions and their refusals |
| CashDesk.Desk.ApplyCashOut | app/aris3/routers/pos_cash.py:1152-1183 | in place: CASH_OUT on the open session of the cut, and the link overwritten |
| CashDesk.Desk.CloseDay | app/aris3/routers/pos_cash.py:1196-1335 | in place: refusals in order, forced sessions closed, rollup recorded, DAY_CLOSE movement appended |
| CashDesk.Desk.CloseSessions | app/aris3/routers/pos_cash.py:1276-1278 | the loop closes exactly the open sessions of the day |
| CashRepair.Upgrade | migrations/versions/0031_s10_pos_cash_stale_open_repair.py:20-55 | the UPDATE writes status and closed_at of stale rows in place |
| CashRepair.RepairClosesStale | migrations/versions/0031_s10_pos_cash_stale_open_repair.py:38-55 | afterwards no session is open on a CLOSED day; only stale rows changed, only in status and closed_at; at most one open session per drawer if and only if at most one was visible before |
| CashRepair.RepairTwice | migrations/versions/0031_s10_pos_cash_stale_open_repair.py:47-55 | the second run changes nothing |
| CashRepair.RepairKeepsLookup | app/aris3/routers/pos_cash.py:265-288 | the filtered lookup finds the same row before and after, and the unfiltered one now finds it too |
| CashRepair.RepairEstablishes | migrations/versions/0031_s10_pos_cash_stale_open_repair.py:38-55 | the repair establishes the whole invariant, so every later request keeps it |
| CashRepair.CheckCashSessionOpen | app/ops/integrity_checks.py:143-173 | reports exactly the drawers of a tenant with more than one OPEN session, once each, with the count |
| CashRepair.SilentIffOneOpen | app/ops/integrity_checks.py:143-173 | what the check returns is empty if and only if no drawer of the tenant has two open sessions |
| CashRepair.ReachableSilent | app/ops/integrity_checks.py:143-173 | in every reachable state the check returns nothing, for every tenant |
| VoucherInvariants.AfterKeeps | app/aris3/routers/pos_advances.py:261-664 | every voucher or cash request keeps the combined invariant and only appends day closes |
| VoucherInvariants.IssueKeeps | app/aris3/routers/pos_advances.py:273-375 | an accepted issue keeps numbers in sequence, the log, the totals and the links |
| VoucherInvariants.MutateKeeps | app/aris3/routers/pos_advances.py:526-635 | refund, consumption and manual expiry keep log, totals and links in step |
| VoucherInvariants.SweepEffect | app/aris3/services/pos_advances.py:35-60 | a sweep expires the due rows of its store and changes no other row |
| VoucherInvariants.SweepLogs | app/aris3/services/pos_advances.py:35-60 | a sweep logs one EXPIRED event for every due row of its store, in table order, and nothing else |
| VoucherInvariants.StepSettles | app/aris3/routers/pos_advances.py:527-635 | no request changes a terminal row or what identifies and values any row |
| VoucherTheorems.Reachable | app/aris3/routers/pos_advances.py:261-664 | every reachable state of vouchers and cash together satisfies the combined invariant |
| VoucherTheorems.ClosedDayFrozen | app/aris3/routers/pos_advances.py:187-223 | closed days stay frozen while vouchers are issued, refunded and swept, also by card or transfer on that day |
| VoucherTheorems.Conservation | app/aris3/routers/pos_advances.py:358-373 | total issuance movements = ACTIVE amounts + applied amounts + refund movements + EXPIRED amounts, for any mix of cash, card and transfer |
| VoucherTheorems.LogMatchesStatus | app/aris3/routers/pos_advances.py:308-318 | exactly one ISSUED event; no terminal event while ACTIVE, afterwards exactly one, that of the status |
| VoucherTheorems.TerminalForEver | app/aris3/routers/pos_advances.py:527-633 | no run changes a terminal voucher |
| VoucherTheorems.NumbersAreExact | app/aris3/routers/pos_advances.py:277-285 | the numbers of a store are exactly 1..k after k issues |
| VoucherTheorems.NumbersIncrease | app/aris3/routers/pos_advances.py:277-285 | a later voucher of a store has a higher number |
| VoucherTheorems.PaddedParses | app/aris3/routers/pos_advances.py:286 | the zero-padded number parses back for every natural number, also past eight digits |
| VoucherTheorems.BarcodesDistinct | app/aris3/routers/pos_advances.py:286 | within a store barcodes are equal exactly for equal numbers |
| VoucherTheorems.ClashIffSamePrefix | app/aris3/routers/pos_advances.py:286-307 | in every reachable state an issue of a positive amount is refused for its barcode if and only if another store of the tenant with the same first eight digits has a voucher with the next number of this store |
| VoucherTheorems.ClashHappens | app/aris3/routers/pos_advances.py:286-307 | a reachable state in which the first voucher of a store is refused for its barcode |
| VoucherTheorems.ScanFindsOwn | app/aris3/routers/pos_advances.py:432-438 | scanning a barcode matches, within the store, its own voucher and no other |
| VoucherTheorems.EndedByOneAction | app/aris3/routers/pos_advances.py:526-605 | in every run a consumed or refunded voucher was ended by exactly one step: an action on it that checked before its expiry and whose second clock reading it is stamped with; a CONSUME whose sale the row carries, or a REFUND whose own movement it carries |
| VoucherTheorems.SaleOnlyIfConsumed | app/aris3/routers/pos_advances.py:599-601 | in every run a voucher that names a sale is CONSUMED |
| VoucherTheorems.LateStampIffBetweenReadings | app/aris3/routers/pos_advances.py:526-530 | in every run such a voucher is stamped at or after its expiry if and only if the action that ended it has the expiry between its two clock readings |
| VoucherTheorems.NeverAfterExpiry | app/aris3/routers/pos_advances.py:526-605 | so without an action that straddles its expiry no run consumes or refunds it late |
| VoucherTheorems.LateStampHappens | app/aris3/routers/pos_advances.py:526-530 | a run of two requests in which a voucher is consumed at its expiry |
| VoucherTheorems.BrowseShowsView | app/aris3/routers/pos_advances.py:391-490 | the list and the alerts filter and show every row of the store by its status at the time of the call |
| VoucherTheorems.SweepTwice | app/aris3/services/pos_advances.py:35-60 | sweeping at t1 and at t2 >= t1 gives the statuses of sweeping at t2 alone |
| VoucherTheorems.StepAlike | app/aris3/services/pos_advances.py:14-32 | systems that differ only in written-down expiries answer every request alike and stay alike |
| VoucherTheorems.SweepsAreInvisible | app/aris3/services/pos_advances.py:14-60 | leaving out every call of the sweep endpoint changes no answer to any other call, lists and alerts included, no movement and no session, and every voucher reads the same at the end |
| VoucherLaws.OnlyLive | app/aris3/routers/pos_advances.py:520-528 | no action on a voucher that is not there (RESOURCE_NOT_FOUND), has ended or is past its expiry when checked (BUSINESS_CONFLICT); no table changes |
| VoucherLaws.ConsumeAccepted | app/aris3/routers/pos_advances.py:590-599 | CONSUME is accepted if and only if the voucher is ACTIVE and not past its expiry when checked, the sale total is given and at least its amount, and a named sale is known; each failing case with its error, no table changed |
| VoucherLaws.ConsumeEffect | app/aris3/routers/pos_advances.py:600-632 | the row is CONSUMED with the sale of the request, applied plus remaining is the sale total, one event, no movement, no other row |
| VoucherLaws.RefundAccepted | app/aris3/routers/pos_advances.py:531-552 | REFUND needs a tender, and in cash an active session that may pay the amount out; each failing case with its error |
| VoucherLaws.RefundEffect | app/aris3/routers/pos_advances.py:531-586 | the face value goes out once, in cash from the active session or as a movement without one, and the row links to that movement |
| VoucherLaws.ExpireNowLaw | app/aris3/routers/pos_advances.py:614-621 | EXPIRE ends a live voucher at the time of the request |
| VoucherLaws.IssueAccepted | app/aris3/routers/pos_advances.py:273-321 | ISSUE is accepted if and only if the amount is positive, no voucher of the tenant has the barcode of the next number, and in cash an active session may take it; each failing case with its error |
| VoucherLaws.IssueEffect | app/aris3/routers/pos_advances.py:276-372 | it adds one ACTIVE row with the next number, expiring sixty days later and linked to its payment, and one event; the caller is told number and barcode |
| VoucherLaws.BarcodeText | app/aris3/routers/pos_advances.py:286 | a barcode is ADV, eight hexadecimal digits worth the head of the store, and at least eight decimal digits worth the number |
| VoucherLaws.LookupLaw | app/aris3/routers/pos_advances.py:432-456 | LOOKUP finds the first row the code names by barcode or number, shows what it is when checked, writes a due expiry and one VALIDATED event |
| VoucherLaws.LookupNothing | app/aris3/routers/pos_advances.py:439-440 | a code that names no row is answered as not found and leaves no trace |
| VoucherLaws.NumberNames | app/aris3/routers/pos_advances.py:432-436 | a number typed with any leading zeros names the vouchers of that number and no others |
| VoucherLaws.NumberFindsOwn | app/aris3/routers/pos_advances.py:432-436 | so within its store a voucher is named by its number alone |
| VoucherLaws.GetLaw | app/aris3/routers/pos_advances.py:490-508 | GET shows what the row is now and writes a due expiry; an unknown voucher is refused |
| VoucherLaws.SweepLaw | app/aris3/services/pos_advances.py:30-55 | a sweep ages exactly the due ACTIVE rows of the store and logs each once, in table order |
| VoucherLaws.BrowseLaw | app/aris3/routers/pos_advances.py:391-487 | list and alerts sweep the store and show each wanted row once: by its status now, and for alerts ACTIVE and expiring between now and the last day, ends included |
| VoucherLaws.CashLaw | app/aris3/routers/pos_cash.py:601-867 | a request of the cash routers changes no voucher and no event |
| VoucherDesk.Desk.Expire | app/aris3/services/pos_advances.py:14-32 | in place: expires a due ACTIVE row and logs it |
| VoucherDesk.Desk.SweepExpired | app/aris3/services/pos_advances.py:35-60 | the loop expires and returns exactly the due rows of the store |
| VoucherDesk.Desk.Create | app/aris3/routers/pos_advances.py:261-375 | row, event and payment, or nothing at all |
| VoucherDesk.Desk.Mutate | app/aris3/routers/pos_advances.py:512-635 | the action on the row in place, or the refusal with its lazy expiry rolled back |
| VoucherDesk.Desk.Refund | app/aris3/routers/pos_advances.py:531-589 | pays out through the drawer or by card, then marks the row |
| VoucherDesk.Desk.Consume | app/aris3/routers/pos_advances.py:590-613 | refused below the issued amount; applied and remaining amounts logged |
| VoucherDesk.Desk.Browse | app/aris3/routers/pos_advances.py:391-490 | sweeps the store, then returns the rows that pass the filter |
| VoucherDesk.Desk.Lookup | app/aris3/routers/pos_advances.py:425-456 | finds the first match, writes a due expiry and logs VALIDATED |
| VoucherDesk.Desk.Get | app/aris3/routers/pos_advances.py:493-508 | shows the status view at the time of the call |
| JsonPointer.ResolveLocalRef | app/aris3/openapi_validation.py:6-16 | the token loop gives the node that the unescaped keys lead to, or an error |
| JsonPointer.PointerRoundTrip | app/aris3/openapi_validation.py:6-16 | a reference built from any keys, escaped as in section 3 of RFC 6901, resolves to exactly the node those keys lead to |
| JsonPointer.UnescapeEscape | app/aris3/openapi_validation.py:12 | the two replacements undo the escaping of every key |
| JsonPointer.WrongOrderIff | app/aris3/openapi_validation.py:12 | the order of the two replacements matters: taken the other way round they would give a key back if and only if it does not contain ~1 |
| JsonPointer.ResolvesLocally | app/aris3/openapi_validation.py:6-16 | a reference without "#/" resolves to nothing; any other along its parts between slashes, each unescaped |
| JsonPointer.FollowIsChain | app/aris3/openapi_validation.py:10-15 | following keys ends in a value if and only if a chain of mappings leads there |
| RefWalk.Walker.Walk | app/aris3/openapi_validation.py:22-38 | appends to the shared list the report of the subtree |
| RefWalk.FindUnresolved | app/aris3/openapi_validation.py:19-41 | returns the report of the whole document |
| RefWalk.ReportExplained | app/aris3/openapi_validation.py:22-38 | one line per dangling reference at any depth, each place once, none missing, with its pointer |
| RefWalk.ChildIs | app/aris3/openapi_validation.py:31-38 | a child of a mapping is labelled with its key, a child of a list with the numeral of its position |
| RefWalk.LineText | app/aris3/openapi_validation.py:22-38 | a line is the keys and positions down to the place, each after a slash, and the reference found there |
| RefWalk.EmptyIffResolved | app/aris3/openapi_validation.py:19-41 | the list is empty if and only if no mapping at any depth holds a dangling $ref |
| RefWalk.CleanIffAllResolve | app/aris3/openapi_validation.py:19-41 | the same, over the set of references of the document |
| OpenApiHardener.Hardener.InjectComponents | app/aris3/openapi.py:923-930 | the loops write every error schema and response over the generated ones |
| OpenApiHardener.Operation.Apply | app/aris3/openapi.py:941-958 | the four reference-touching phases of one operation in their order |
| OpenApiHardener.Operation.ApplyErrorResponses | app/aris3/openapi.py:442-496 | 422 always, 404 and 409 where due, contents replaced where they are present |
| OpenApiHardener.Hardener.HardenAllPaths | app/aris3/openapi.py:941-958 | the nested loops harden every operation of every path and nothing else |
| OpenApiHardener.Hardener.RemoveHttpValidationError | app/aris3/openapi.py:966-977 | the component goes, and the loop redirects every 422 JSON schema that referred to it |
| OpenApiHardener.Hardener.Run | app/aris3/openapi.py:917-980 | the loops together compute the hardened document of the specification |
| OpenApiHardener.FirstOfEachIdentity | app/aris3/openapi.py:526-533 | the loop with its set of seen identities is the deduplication |
| OpenApiHardener.DedupeKeepsFirsts | app/aris3/openapi.py:526-533 | it keeps, in order, exactly the parameters whose (in, name) did not occur before |
| OpenApiClosure.HardenOperationRefs | app/aris3/openapi.py:442-551 | a hardened operation refers only to what it referred to once substituted, and to injected components |
| OpenApiClosure.InjectedServed | app/aris3/openapi.py:923-930 | every reference the phases introduce has its component after hardening |
| OpenApiClosure.ComponentKept | app/aris3/openapi.py:966-967 | every component of any section but HTTPValidationError is still there after hardening |
| OpenApiClosure.RemovedDangles | app/aris3/openapi.py:966-967 | a reference to HTTPValidationError resolves in no hardened document |
| OpenApiClosure.ClosedIffRemovedUnused | app/aris3/openapi.py:917-980 | for a closed document the hardened one passes the check if and only if nothing in it refers to HTTPValidationError (a step towards ClosedIffAllRewritten) |
| OpenApiLaws.AuthLaw | app/aris3/openapi.py:499-509 | 401 refers to UnauthorizedError and 403 to ForbiddenError where an operation is secured, not public and has no such response; otherwise they stay |
| OpenApiLaws.NotFoundLaw | app/aris3/openapi.py:460-482 | on administrative paths a 404 that is there or wanted points to NotFoundErrorResponse and says store before user before tenant; wanted for a path with an identifier, or the creation of a user or store |
| OpenApiLaws.ConflictLaw | app/aris3/openapi.py:466-496 | on administrative paths a 409 that is there or belongs to a write points to ConflictErrorResponse |
| OpenApiLaws.InvalidLaw | app/aris3/openapi.py:442-458 | 422 points to ValidationErrorResponse for credentials and administration; elsewhere it stays, an HTTPValidationError in it replaced |
| OpenApiLaws.OtherResponsesLaw | app/aris3/openapi.py:442-509 | every other response of every operation stays as it was |
| OpenApiLaws.OtherKeysLaw | app/aris3/openapi.py:941-977 | the modelled phases change an operation under responses and parameters alone |
| OpenApiLaws.ParametersLaw | app/aris3/openapi.py:512-540 | an administrative write accepts a required Idempotency-Key header, added at the end if missing; the creation of a store keeps the first of each identity and no tenant_id of the query; all others stay |
| OpenApiLaws.IdentityIs | app/aris3/openapi.py:529 | two parameters are one when they agree in place and name, missing ones read as empty |
| OpenApiLaws.SchemasLaw | app/aris3/openapi.py:224-313 | which error schemas refer to which |
| OpenApiLaws.ResponsesLaw | app/aris3/openapi.py:315-353 | the shared 401 and 403 responses and their aliases |
| OpenApiLaws.OtherComponentsLaw | app/aris3/openapi.py:920-967 | every other component and section stays as it was |
| OpenApiEdits.DocumentFollows | app/aris3/openapi.py:917-980 | the hardened document refers to HTTPValidationError exactly when a place of the generated one does that no phase rewrites |
| OpenApiEdits.OperationRevises | app/aris3/openapi.py:442-551 | the places of one operation that are rewritten: a replaced 422, description and content of a filled 404 or 409, dropped parameters, 422 JSON schemas |
| OpenApiEdits.ClosedIffAllRewritten | app/aris3/openapi.py:917-980 | for a closed document the hardened one passes the check if and only if every place of the generated document that refers to HTTPValidationError is rewritten |
| OpenApiEdits.SharedBodyFails | app/aris3/openapi.py:966-967 | a closed document whose hardened form does not pass |
| OpenApiTheorems.Survivor | app/aris3/openapi.py:969-977 | a reference that survives the last loop stood at a place the loop does not look at |
| OpenApiTheorems.HardeningKeepsClosure | app/aris3/openapi.py:917-980 | if every reference names a component and HTTPValidationError is referred to only as the schema of 422 JSON responses, every reference of the hardened document resolves |
| OpenApiTheorems.HardenAndCheck | app/aris3/openapi_validation.py:19-41 | the hardening loops followed by the walk return an empty list for such a document |
| Discriminators.Normalize | app/aris3/openapi.py:899-914 | raises for the first entry that does not fit; otherwise the new mapping is sorted and holds exactly the upper-cased actions with their references |
| Discriminators.UpperFoldsCase | app/aris3/openapi.py:901 | two actions are one if and only if they differ at most in letter case |
| Discriminators.LastPartIs | app/aris3/openapi.py:904 | the schema name is what follows the last slash |
| Discriminators.FaultIs | app/aris3/openapi.py:902-911 | which error an entry raises: no text under #/components/schemas/, no such schema, or another reference for the action |
| Discriminators.BeforeIsLexicographic | app/aris3/openapi.py:914 | the order of the keys is the lexicographic one |
| Discriminators.NormalizedAgain | app/aris3/openapi.py:899-914 | a normalised mapping is accepted again and names the same references |
| Percentile.MonotoneInP | scripts/ops/load_probe.py:46-57 | the percentile does not decrease in p, across segment boundaries |
| Percentile.Interpolates | scripts/ops/load_probe.py:49-57 | between neighbours of the arranged samples the value lies above the lower one in the proportion (n - 1) * p lies above its position |
| Percentile.OfUniform | scripts/ops/load_probe.py:46-57 | of the samples 0, 1, .., n - 1 it is (n - 1) * p |
| Percentile.FewSamples | scripts/ops/load_probe.py:47-48 | of one sample it is that sample, of none zero |
| Percentile.WithinSamples | scripts/ops/load_probe.py:46-57 | it is the least sample at 0, the greatest at 1, and between them otherwise |
| Percentile.OrderIrrelevant | scripts/ops/load_probe.py:49 | it does not depend on the order of the samples |
| Percentile.ReportedInOrder | scripts/ops/load_probe.py:175-177 | p50 <= p95 <= p99 |
| DuplicateEpc.CheckDuplicateEpc | app/ops/integrity_checks.py:83-113 | one finding per normalised EPC with several items, listing exactly those items in row order |
| DuplicateEpc.SilentIffNoClash | app/ops/integrity_checks.py:83-113 | no finding if and only if no two items share a normalised EPC |
| DuplicateEpc.IdsAre | app/ops/integrity_checks.py:83-87 | the items of an EPC are exactly the rows that normalise to it, in row order |
| DuplicateEpc.CaseFolds | app/ops/integrity_checks.py:37-43 | codes that differ only in letter case have one normal form |
| DuplicateEpc.SeparatorsDrop | app/ops/integrity_checks.py:37-43 | a character that is no hexadecimal digit makes no difference anywhere |
| DuplicateEpc.NormalForms | app/ops/integrity_checks.py:37-43 | the normal forms are the codes of twenty-four upper-case digits, each its own; other counts have none |
| DuplicateEpc.NormalizedTwice | app/ops/integrity_checks.py:37-43 | a normalised EPC is its own normal form |

## Left out

- Tokens, roles, tenant and store scoping, idempotency keys, audit records, metrics, logging, row locks, drawer
  events and HTTP responses of all handlers.
- Checkout, returns and exchanges of the sales router beyond the cash movement they post
  (`TakeSaleCash`); in particular the consumption of a voucher at checkout, so the voucher theorems
  speak of vouchers consumed through their own router.
- CashDesk.Desk.CreateCut: does not record the cut type, the timezone and the notes of a cut, which no computation reads.
- CashDesk.Desk.CutAction: does not record the notes written by COMPLETE and PRINT_MARK.
- Timezones on movements, reasons, actors, transaction and trace identifiers. The movement a voucher row points to is
  the one just posted; the code finds it by transaction id and time.
- Ties among SQL rows with the same sort key (the model takes the later row) and rows chosen by an unordered query
  (the model takes the first).
- Float rounding, `quantize` and column widths. Money is an unbounded integer.
- CashTheorems.ClosedDayFrozen: is stated over the five money totals; the movement counts of the rollup do change
  when a voucher is refunded by card on a closed date, under an action no category includes.
- VoucherDesk.Desk.Consume: does not model the database constraint error that a concurrent deletion of the sale could cause at commit.
- VoucherDesk.Desk.Lookup: does not model the refusal of a match outside the caller's tenant or store; such a match is shown and logged.
- VoucherTheorems.ScanFindsOwn: speaks of the vouchers of one store; the lookup is not scoped and may find a row of another store
  with the same number or prefix first.
- VoucherDesk.Desk.Browse: gives the rows in table order and whole; free-text search, sort order and pages are not modelled.
- VoucherTheorems.PaddedParses: digits are ASCII; other Unicode digits that a lookup code may hold are not modelled.
- JsonPointer.ResolveLocalRef: array indices and percent-encoding are not followed, as in the code; only success or error is kept of an exception.
- OpenApiHardener.Hardener.InjectComponents: injects error schemas and examples cut to the parts that hold references.
- OpenApiHardener.Hardener.Run: leaves out the phases between the loops. Tags, operation ids, descriptions and example texts hold no
  references. Pruning legacy and tenant fields, rewriting one request schema, unwrapping `anyOf` and removing one JSON content
  only drop references or move them within a schema. They add none and remove no component, so the sufficient condition is not affected;
  a reference that only they drop makes a document pass that `ClosedIffAllRewritten` says fails.
- OpenApiHardener.Hardener.RemoveHttpValidationError: takes the chain of lookups inside one operation from the specification as a single
  replacement; only the loops over paths and operations run step by step.
- OpenApiEdits.ClosedIffAllRewritten: is exact for the modelled phases; its only-if half does not count references that only the phases left out drop.
- OpenApiTheorems.HardeningKeepsClosure: goes one way; the condition that is also necessary is that of `ClosedIffAllRewritten`.
- Discriminators.Normalize: upper-cases ASCII letters only; the walk from paths to the three mappings is not modelled.
- Percentile.WithinSamples: p is between 0 and 1, the only values the probe uses; samples are reals, not floats.
- Cut status: VOID and COMPLETE overwrite each other and a second deposit overwrites the link, so no lemma says that a cut status is final or that deposits are summed.
- The other integrity checks, migrations, reports, exports, stock and transfers routers.
