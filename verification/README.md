# Blankee's arithmetic and state machines, modelled and proved

Blankee is a budgeting app. Behind its pages sit a handful of kernels that
decide figures: the projection of leave balances, the reconciliation of bank
transactions, the search for a payment plan, forecasts kept in two stores, the
placing and pricing of paychecks, and the correction of a balance. This project
models those kernels and proves what they promise, for all inputs; where a
promise does not hold of the code, it gives an input that breaks it and the
exact condition under which it holds.

`dafny verify dfyconfig.toml` checks everything. Dates are day ordinals (1 is
1 January of year 1), money is whole cents, hours are whole hundredths, and a
cached table is a sequence of rows. Rates are reals. Python's `round` is
rounding half to even and `quantize(ROUND_HALF_UP)` is rounding half away from
zero, both on exact reals.

## The modules

- `Calendar`, `Cadence`, `Holidays`: the Gregorian calendar on day numbers, the
  recurrence generator and its walk back from an anchor, the holiday rules.
- `Shelf`, `LoafWalk`, `Projection`, `RepeatedDates`: a job and its working week,
  the arithmetic of the balance walk, `project` itself, and what a date generated
  twice does to it. `LoafWalk.Daily` is the plain day-by-day simulation that the
  sparse walk refines; `Projection.Balance` is that simulation under a basket's
  own terms.
- `Bookings`, `BookingGuard`, `UnbilledDays`, `Preview`, `Backfill`, `Payday`: a
  booking in hours, the guard on taking more off a day than it holds and the days it
  does not guard, the preview beside what is saved, filling in the year behind a new
  basket, and the check of a balance on payday.
- `PaymentPlan`: the rounded interest walk and the least-payment search.
- `InTransit`, `PendingPosted`, `LinkedStore`, `PullTwice`: card payments in
  transit, pending and posted transactions, the store they are written to, and
  a pull followed by the same pull.
- `Ledger`, `Buckets`, `DeferUnmatched`: forecasts as entries and as period
  records, and the settling of what the bank never brought.
- `Paychecks`, `PayPeriods`, `PayPhase`, `Cuts`, `ClosedDays`: overtime, salaries and
  gross; paydays and pay periods; which cadences keep their phase; which have windows
  that compose wherever they are cut; and the days no money arrives on.
- `Confirming`, `BalanceMatch`: the loop that answers what is pending, and the
  match of a balance that follows it. Both run over `Buckets.Store`.
- `Reminder`: the balance reminder and its claim.
- `Wrappers`, `Rounding`, `Arithmetic`, `Sorting`: what the others stand on.

Code that runs as loops or changes rows in place is a method or a class proved
against a specification; the specification's own properties are the lemmas.
Beside the functions that decide a figure stand lemmas that say in plain numbers
what they come to (`LoafWalk.ReadsDayByDay`, `PaymentPlan.MonthIs`,
`InTransit.OnePaymentSent`, `Buckets.ResolvedTells`, `Paychecks.TimeAndAHalf`,
`PayPeriods.CheckTells`, `Bookings.HoursOfADay`, `Reminder.NextDueIs` and others),
so that no law rests on a definition alone.

## What turned out not to hold

- A grant is not protected from the ceiling: the accrual after it takes the
  balance down to the ceiling, exactly when the balance stands above it
  (`LoafWalk.AccrualTakesAway`, `LoafWalk.GrantLostToTheCeiling`); the comment
  at `loaf_forecast.py:643-645` says a grant is kept whatever the cap says.
- By the month, a date is generated twice exactly when the month's last day is
  also listed by its number (`RepeatedDates.GeneratedTwice`,
  `RepeatedDates.ThirtiethRepeats`). Its window is then empty: pro-rated by the
  week, that pay date earns nothing, and under fixed `periodHours` the whole
  accrual (`RepeatedDates.WindowIsEmpty`, `RepeatedDates.EmptyWindowEarns`,
  `RepeatedDates.ThirtiethAndLast`).
- The branch of the backfill for a year nothing happened in is never taken
  (`Backfill.OpeningTurnIsAnEvent`).
- The booking guard measures prices against absences, so bookings it lets through can
  take a day past what it holds: exactly a day nobody bills that can be taken together
  with one somebody does (`UnbilledDays.TakenPastExactly`). With no holidays, those are
  the worked days nobody bills, once any worked weekday is billed
  (`UnbilledDays.TakenPastByTheWeek`); whole days off with nothing typed are enough
  (`UnbilledDays.UnbilledDayTakenTwice`).
- The preview of a booking puts its price where saving it puts its hours away, so saving
  never leaves more than the preview showed (`Preview.PreviewAndSaved`). It leaves every
  basket the same on every day exactly when no pay date's window has hours taken from it
  that the preview did not take while some were left (`Preview.SavedTheSameExactly`);
  and whenever the job is paid, exactly when every day the booking takes hours from is
  billed (`Preview.SameUnderAnyPayExactly`). A Thursday and an unbilled Friday off show
  3.60 earned and leave 3.20 (`Preview.PreviewShowsMore`).
- The last payment of a plan by months is not always real money: it is at or below
  zero exactly when the same payment already pays, a month sooner, everything up to
  the last month's charges (`PaymentPlan.LastPaymentIsMoney`). Without charges that
  is when a month fewer costs no more a month (`PaymentPlan.SoonerCostsMore`): a
  thousand over fifty years at no interest is 1.67 a month with 0.33 paid back at
  the end (`PaymentPlan.ThousandOverFiftyYears`).
- A day at the turn of the year is shut or open depending on the span it is
  asked about within (`Holidays.AloneOrInASpan`, `Holidays.SaturdayNewYear`). No
  payday can see the difference (`ClosedDays.ClosedAlike`).
- Planning a period over a forecast of another amount leaves its record as it was: the
  stores go on agreeing exactly when cell and period are both free, or both taken and
  the forecast there is of that amount already (`Buckets.PlanAgrees`).
- Answering a deferred forecast settles another period's record when that one
  is listed first (`Buckets.AnswerAgrees`, `Buckets.AnswerSettlesAnother`).
- Spending that finds no forecast in reach and falls on a period still forecast
  parts the two stores, exactly when something was left to forecast
  (`Buckets.TakingFromTheRecordAlone`). An allowance for a quarter does so in its
  first month, and in its second finds no record to take from, because the period is
  looked up by the month alone (`Buckets.QuarterlyAllowance`).
- Restoring keeps the two stores agreeing exactly under the condition of
  `Buckets.RestoringAgrees`. A spent allowance given back in part comes back twice
  over (`Buckets.GivenBackTwice`); one put off from its day is not found there, and
  a second forecast is written beside it (`Buckets.GivenBackBeside`).
- Paid twice a week, overtime is charged by overlapping workweeks
  (`Paychecks.TwoPaydaysAWeek`).
- The date before a pay date is found in every window exactly for the cadences of
  `PayPhase.KeepsPhase`: by the day always, by the week every week or on one weekday,
  by the month and the year when every month or year stepped onto has a date, or none
  has (`PayPhase.PhaseKeptExactly`). Several weekdays of every other week lose it
  (`PayPhase.TwoWeekdaysLoseIt`).
- A window of paychecks is not always the two halves it is cut into. Whatever days are
  closed, it is so wherever it is cut exactly when the cadence goes by the week or keeps
  its phase (`Cuts.CutsAnywhereExactly`, and for a job with its own closed days worked
  out `ClosedDays.JobCutsAnywhereExactly`). Paid on the 31st, a cut after a short month
  misplaces the start of a check's period (`Cuts.ShortMonthMisplaces`).
- The search for paydays looks ten days either way though one may move fourteen: after
  eleven days shut, a check cut off on the day it lands is in neither half
  (`PayPhase.ElevenDaysShut`). Public holidays alone never shut so many
  (`ClosedDays.NeverElevenShut`), so it takes holidays of the job's own.
- By the month or the year with no list, the reminder keeps the day it was stepped
  from, which after a short month is no longer the anchor's: anchored on the 31st of
  January it comes on 28 February and then on 28 March, which is no occurrence
  (`Reminder.LostAfterFebruary`). Claims made on time stay on occurrences exactly as
  long as no month shows a later day than one before it
  (`Reminder.OnScheduleWhile`, `Reminder.OnScheduleForever`); the docstring at
  `auto_balance.py:368-370` promises the anchor's day.
- With no list, a late claim steps from the day it is made, so it stays on an occurrence
  only if that day is as good as one: by days or weeks, when it is late by whole
  intervals (`Reminder.ClaimStays`, `Reminder.LateByWholeIntervals`). A run of claims
  stays on them exactly when each of its wins does (`Reminder.RunStaysOnSchedule`).
- With several weekdays and an interval past the scan, the reminder steps over the
  others (`Reminder.FallbackByWeekday`, `Reminder.ScanComesUpEmpty`): Mondays and
  Thursdays of every 120th week skip a Monday (`Reminder.MondayIsSteppedOver`).
- The loop that answers what is pending takes two neighbouring lines of one id for one
  that would not go away, though two tables may give out the same id; it answers every
  line exactly when no neighbours share one (`Confirming.AllAnswered`,
  `Confirming.SameIdStalls`).
- A correction lands exactly only when what the day's corrections come to has a
  category on its side (`BalanceMatch.CorrectionMoves`, `BalanceMatch.ShortOfASide`).
- Drawing on a forecast after a correction moves the measured balance exactly when that
  forecast was due by the day and is counted (`BalanceMatch.DrawingMoves`); once every
  line is answered none is (`BalanceMatch.AnsweredIsQuiet`).

## Model

| member | source | states |
|---|---|---|
| PaymentPlan.MonthlyWalk | payment_plan.py:37-55 | the balances after each payment, each within half a cent of the one before with a twelfth of the yearly rate and the charges added and the payment taken, and with no interest on nothing owed; and the interest they come to; stopping early when asked |
| PaymentPlan.MonthIs | payment_plan.py:37-55 | one month, from the yearly rate itself |
| PaymentPlan.OnlyOneMonth | payment_plan.py:37-55 | those figures leave one answer only |
| PaymentPlan.InterestIs | payment_plan.py:37-55 | the interest of a run is what the payments leave owed beyond the balance and the charges |
| PaymentPlan.PaidMoreOwesLess | payment_plan.py:37-55 | the gap between two payments' balances grows by at least their difference each month, whatever interest rounds to |
| PaymentPlan.WalkStrictlyDecreasing | payment_plan.py:37-60 | at every month a larger payment leaves strictly less owed |
| PaymentPlan.ClearsInMonotone | payment_plan.py:58-60 | a larger payment clears whenever a smaller one does |
| PaymentPlan.SomePaymentClears | payment_plan.py:63-81 | for any number of months some payment clears, so the search is never in vain |
| PaymentPlan.StaysCleared | payment_plan.py:58-60 | a payment that has cleared a card clears it in any later month too |
| PaymentPlan.NeverClears | payment_plan.py:126-135 | a payment below the monthly charges never clears, however many months it is given |
| PaymentPlan.Double | payment_plan.py:65-74 | doubling ends with a payment that clears and a lower one that does not, or with none inside the limit |
| PaymentPlan.Bisect | payment_plan.py:75-81 | bisection ends on a cent amount that clears while one cent less does not |
| PaymentPlan.LeastPayment | payment_plan.py:63-81 | the result is the least cent amount that clears, never above a ceiling that does, and there is none exactly when the last payment tried does not clear |
| PaymentPlan.LastTriedIs | payment_plan.py:63-74 | with no ceiling the doubling ends at 8,589,934,592.00 |
| PaymentPlan.NoFewerMonths | payment_plan.py:136-139 | no payment up to a ceiling clears in fewer months than the ceiling does |
| PaymentPlan.LastPaymentIsMoney | payment_plan.py:117-148 | the adjusted last payment of a plan by months is above zero exactly when, a month sooner, that payment is not the least that pays all but the last month's charges; with no charges, not the plan for a month fewer |
| PaymentPlan.SoonerCostsMore | payment_plan.py:117-148 | without charges, the last payment is above zero exactly when the plan for a month fewer asks for more a month |
| PaymentPlan.FreePlan | payment_plan.py:117-148 | with no interest and no charges the payment is the balance in equal parts rounded up, and the last payment what is left over |
| PaymentPlan.ThousandOverFiftyYears | payment_plan.py:117-148 | a thousand over six hundred months: 1.67 a month and a last payment of -0.33 |
| PaymentPlan.FewestMonths | payment_plan.py:126-136 | the first month a payment clears in, or none within the limit |
| PaymentPlan.LeastForMaximum | payment_plan.py:136-139 | with a maximum stated: the fewest months it allows, and the least payment that clears in them |
| PaymentPlan.LeastForMonths | payment_plan.py:117-120 | with months stated: the least payment that clears in them |
| PaymentPlan.Settle | payment_plan.py:144-151 | the last payment and the totals of a plan; replaying it ends at zero |
| PaymentPlan.PlanForMonths | payment_plan.py:109-120 | the answer, refusals included, when a number of months is stated |
| PaymentPlan.PlanForMaximum | payment_plan.py:121-139 | the answer, refusals included, when a maximum payment is stated |
| PaymentPlan.Plan | payment_plan.py:84-151 | the answer in either mode: refused for a card with nothing owed, for no months or more than 600, for a maximum of nothing; else the months asked for, or a payment within the maximum |
| PaymentPlan.PlanPaidOut | payment_plan.py:117-151 | a plan paid out: every month from the yearly rate, nothing owed after the last payment, and interest for all that is paid beyond the balance and the charges |
| PaymentPlan.OneMonthPlan | payment_plan.py:117-120 | in one month, the balance, its interest and its charges |
| PaymentPlan.MaximumPlanIsFastest | payment_plan.py:121-139 | no payment up to the maximum clears the card in fewer months than the plan |
| PaymentPlan.MoreMonthsCostNoMoreAMonth | payment_plan.py:63-81 | asking for longer never asks for more a month |
| InTransit.Exchange | bank_import.py:1554-1569 | letting the earliest payment take the earliest arrival that answers it loses nothing, whatever a pairing did with them |
| InTransit.GreedyIsPairing | bank_import.py:1554-1569 | earliest-first pairing is one to one, of equal amounts, none posted more than three days before it was sent |
| InTransit.GreedyIsOptimal | bank_import.py:1554-1569 | no such pairing answers more money |
| InTransit.LeastWaitingIsLeast | bank_import.py:1554-1569 | whatever order the lists came in, what is left waiting is the least any pairing leaves |
| InTransit.PairEarliestFirst | bank_import.py:1555-1567 | the loop over the flags leaves waiting what earliest-first pairing does |
| InTransit.WaitingOnCard | bank_import.py:1554-1569 | one card, from unsorted lists |
| InTransit.InTransitPayments | bank_import.py:1497-1570 | every linked card: which payments and arrivals are looked at, and what is waiting on each, as `InTransit` has it |
| InTransit.NoArrival | bank_import.py:1544-1552 | dropping a pending row, money going out, a later row or a row of an account no card is linked to changes no answer |
| InTransit.NotSent | bank_import.py:1524-1542 | nor does dropping a forecast, spending outside the seven days or in a category that pays no linked card |
| InTransit.OnePaymentSent | bank_import.py:1521-1570 | one payment sent is reported, on its card and for its amount, unless the account has money settled in of that amount from three days before it up to the day |
| InTransit.ReportedIsLeast | bank_import.py:1553-1570 | a card is reported exactly when something waits on it, and then with the least any pairing would leave |
| PendingPosted.Best | bank_import.py:343-358 | of the stored pending rows that match and are not taken, the first of the closest |
| PendingPosted.FirstOfTheClosest | bank_import.py:343-358 | of rows equally close, the first listed is taken |
| PendingPosted.ClosestPending | bank_import.py:343-358 | the loop finds that row |
| PendingPosted.TakeOne | bank_import.py:326-366 | one fetched row: left, updated, matched to a pending one, or added |
| PendingPosted.Withdrawn | bank_import.py:368-377 | exactly the pending rows not taken, inside the window asked about and past the grace period |
| PendingPosted.FindWithdrawn | bank_import.py:368-377 | the loop finds those rows |
| PendingPosted.ReconcilePending | bank_import.py:292-379 | the whole decision: rows to write, rows to delete, and the four counts |
| PendingPosted.OneMoreFetched | bank_import.py:326-366 | one fetched row more, whatever came before: what it adds to the decision, counted once |
| PendingPosted.AlreadyStored | bank_import.py:326-342 | a row fetched again under its id is rewritten when its date, amount, description or pending flag changed, and else left |
| PendingPosted.NothingToSettle | bank_import.py:343-366 | a new row with no stored pending row of its account and amount, from a day after it to five days before, is added |
| PendingPosted.SettlesTheClosest | bank_import.py:343-366 | a posted row with a new id settles the first of the closest: that one is deleted and the new row takes it over |
| PendingPosted.WithdrawnWhenSilent | bank_import.py:368-379 | told nothing about a window, exactly its pending rows past the three days of grace go; asked about none, nothing does |
| PullTwice.DecideAccounts | bank_import.py:313-366 | every fetched row is counted once as new, updated or unchanged; each stored pending row is taken at most once |
| PullTwice.DecideCovers | bank_import.py:326-366 | each fetched row not already stored as it is, is written |
| PullTwice.DeletesSpareTheReported | bank_import.py:313-379 | nothing is deleted that the bank still reports, and only pending rows are |
| PullTwice.PullAccounts | bank_import.py:292-379 | the same accounting for a whole pull, withdrawals included |
| PullTwice.CurrentAfterUpserts | bank_redis.py:871-900 | after the bulk write an id holds the last row written for it, and other ids are untouched |
| PullTwice.CurrentAfterDeletes | bank_redis.py:903-930 | deleting ids leaves every other id as it was |
| PullTwice.FetchedIsStored | bank_import.py:384-390 | after one pull every fetched row is stored |
| PullTwice.NothingLeftToWithdraw | bank_import.py:368-377 | after one pull nothing is left for the same pull to withdraw |
| PullTwice.SecondPull | bank_import.py:292-390 | the same pull again deletes nothing, and writes nothing exactly when the rows fetched under one id agree |
| PullTwice.SecondPullChangesNothing | bank_import.py:292-390 | the same pull again leaves the store as it was |
| PullTwice.UpsertsKeepRowIdsDistinct | bank_redis.py:851-900 | bulk writes keep row ids distinct, temporary ones included |
| LinkedStore.LinkedTransactions.NextTempId | bank_redis.py:851-868 | an id below every id in the list and below zero |
| LinkedStore.LinkedTransactions.IndexById | bank_redis.py:881-884 | the id index, a later row winning |
| LinkedStore.LinkedTransactions.UpsertRow | bank_redis.py:886-897 | one row rewritten in place, or appended with a temporary id |
| LinkedStore.LinkedTransactions.BulkUpsert | bank_redis.py:871-900 | the list after a bulk write |
| LinkedStore.LinkedTransactions.Delete | bank_redis.py:903-930 | the list without the ids, and how many went |
| LinkedStore.LinkedTransactions.Store | bank_import.py:384-390 | deletes first, then writes |
| LinkedStore.LinkedTransactions.Pull | bank_import.py:292-390 | decide against the store, then write the decision to it |
| LinkedStore.UpsertIndexes | bank_redis.py:886-897 | a row upserted moves no other id |
| Cadence.GeneratesTheSeries | bucket_utils.py:26-142 | a date is generated exactly when it is no later than the end and belongs to the series: on the grid of its unit and on one of its days |
| Cadence.SeriesIs | bucket_utils.py:26-142 | what belongs to a series, unit by unit: whole intervals from its start, on a listed weekday, a listed day of the month or its last, the date of the year |
| Cadence.HorizonOnlyExtends | bucket_utils.py:26-142 | pushing the end out keeps the dates already produced as the beginning of the longer list, repeats and all |
| Cadence.RecurringOccurrenceDates | bucket_utils.py:26-142 | the generator, unit by unit |
| Cadence.StepDays | bucket_utils.py:50-55 | the loop over days |
| Cadence.StepWeeks | bucket_utils.py:57-67 | the loop over weeks and their weekdays |
| Cadence.StepMonths | bucket_utils.py:69-116 | the loop over months and their days, days a month lacks left out |
| Cadence.StepYears | bucket_utils.py:118-135 | the loop over years, a year without the day left out |
| Cadence.WalkBackToStart | loaf_forecast.py:375-397 | the walk back from the anchor, three thousand periods at most |
| Cadence.GenerateFromIs | loaf_forecast.py:375-397 | the anchor or whole cadences back of it, no more than it takes and never more than three thousand |
| Cadence.WalkBackOrder | loaf_forecast.py:375-397 | a later start walks back less far, and no differently when it never gets there |
| Cadence.PhaseDecidesTheSeries | bucket_utils.py:26-142 | two starts in one phase begin the same series |
| Cadence.PayDatesAreAccrualDates | loaf_forecast.py:433-452 | whatever date generation begins from, the pay dates reported after a day are exactly the accrual dates of the walk after it |
| Cadence.PayDatesAre | loaf_forecast.py:433-452 | the pay dates of a span are those of the series begun behind it, in order |
| Holidays.EasterIsASpringSunday | loaf_holidays.py:72-88 | in every Gregorian year Easter is a Sunday from 22 March to 25 April |
| Holidays.EasterFalls | loaf_holidays.py:72-88 | the month and the day of Easter from its days after 22 March |
| Holidays.EarliestEaster | loaf_holidays.py:72-88 | in 1818 on 22 March |
| Holidays.LatestEaster | loaf_holidays.py:72-88 | in 2038 on 25 April |
| Holidays.EasterOf2024 | loaf_holidays.py:72-88 | in 2024 on 31 March |
| Holidays.EasterOf2025 | loaf_holidays.py:72-88 | in 2025 on 20 April |
| Holidays.Observed | loaf_holidays.py:58-69 | a fixed holiday is observed on a weekday within a day of it, and on itself when it is one |
| Holidays.NthWeekday | loaf_holidays.py:91-104 | the steps to the nth weekday of a month, or the nth from its end |
| Holidays.NthIsTheNth | loaf_holidays.py:91-104 | it is that weekday, in that month, and the nth of them |
| Holidays.HolidayFalls | loaf_holidays.py:37-119 | every holiday of the table is, in every year, the day its name says |
| Holidays.OwnFalls | loaf_holidays.py:191-212 | one of a job's own is that day of that month, in a year that has it |
| Holidays.ListDatesBetween | loaf_holidays.py:215-232 | the observed days of every year of a span, clipped to it |
| Holidays.AloneOrInASpan | loaf_holidays.py:215-232 | a day alone and the same day in a span differ exactly when only a holiday of the neighbouring year, observed across the turn, shuts it and the span reaches that year |
| Holidays.WeekdayOfNewYear | loaf_holidays.py:58-69 | which weekday each year begins on, and so which years have a Saturday New Year's Day |
| Holidays.SaturdayNewYear | loaf_holidays.py:58-69 | the Friday before a Saturday New Year's Day is such a day |
| LoafWalk.Visit | loaf_forecast.py:624-721 | one stop: turn, grant, accrual and ceiling, credit, usage, in that order |
| LoafWalk.Walk | loaf_forecast.py:611-721 | the stops gathered, sorted and visited once each |
| LoafWalk.ReadBalance | loaf_forecast.py:731-747 | the last checkpoint at or before a day |
| LoafWalk.WalkIsDaily | loaf_forecast.py:611-747 | on every day the sparse walk reads what simulating every day in turn gives |
| LoafWalk.ReadsDayByDay | loaf_forecast.py:624-747 | what is read on a day, from what is read the day before: a turn carries over nothing, no more than the cap, or all, and grants; an accrual stops at the ceiling; credits come in and usage goes out |
| LoafWalk.TurnLeaves | loaf_forecast.py:628-637 | a turn alone leaves nothing, the least of the balance and the cap, or the balance |
| LoafWalk.EventsTell | loaf_forecast.py:624-721 | each event tells its day's movements, and they account for the balance it leaves |
| LoafWalk.UsedTotalIs | loaf_forecast.py:711-721 | the used total is what was used within the walk |
| LoafWalk.TotalsBalance | loaf_forecast.py:624-728 | the two totals, the grants and what turns forfeited account for the last balance |
| LoafWalk.SameDaysSameBalance | loaf_forecast.py:624-721 | terms that do the same things up to a day leave the same balance |
| LoafWalk.HoursAreConserved | loaf_forecast.py:624-721 | opening hours, plus granted, accrued and credited, less used and what every turn takes above its cap, is the balance of every day |
| LoafWalk.CarryingAllForfeitsNothing | loaf_forecast.py:628-637 | a basket that carries everything over forfeits nothing |
| LoafWalk.AccrualTakesAway | loaf_forecast.py:686-697 | an accrual lowers the balance exactly when it meets one above the ceiling |
| LoafWalk.GrantLostToTheCeiling | loaf_forecast.py:639-697 | a grant of 150 hours under a ceiling of 120 loses 30 at the next pay date |
| LoafWalk.DayKeepsOrder | loaf_forecast.py:624-721 | one day neither reverses two balances nor widens their gap beyond that day's own hours and accrual |
| LoafWalk.TimeOffCosts | loaf_forecast.py:624-721 | taking more and earning less never raises a balance, and lowers it by at most the hours and the accrual they cost |
| LoafWalk.MovesByExactly | loaf_forecast.py:699-716 | hours credited or used on one day move that day's balance by exactly themselves |
| LoafWalk.OpeningTurnFoldsIn | loaf_forecast.py:604-609 | replaying a year with its opening turn is starting from what that turn left |
| Shelf.ScheduledHoursBetween | loaf_forecast.py:455-471 | the hours the week says are worked between two days |
| Shelf.HolidayHoursBetween | loaf_forecast.py:474-505 | the attended hours lost to shut days between two days |
| Shelf.MinutesDayByDay | loaf_forecast.py:455-471 | the minutes of a period, day after day |
| Shelf.OneMoreShut | loaf_forecast.py:474-505 | a shut day more takes what its weekday has scheduled, if anybody attends it |
| Shelf.ShutHours | loaf_forecast.py:474-505 | the days taken are the observed holidays of the period, each once |
| Shelf.YearTurnsAre | loaf_forecast.py:333-358 | the turns reported are exactly the days the leave year turns on, clamped to the month |
| Shelf.TurnIs | loaf_forecast.py:333-358 | the year turns in its month, clamped to the twelve, on its day or the last of a month that is shorter |
| Shelf.YearBoundsHold | loaf_forecast.py:811-831 | a leave year holds its date and no other turn falls inside it |
| Shelf.YearsTile | loaf_forecast.py:811-831 | the day after a leave year ends the next begins |
| Shelf.AbsenceNeverEarns | loaf_forecast.py:650-684 | being away more never earns more, and a flat accrual does not look |
| Shelf.EarnedIs | loaf_forecast.py:650-684 | a pay date earns the hours stated, or the part of them worked: of the hours counted in a period or those the week has, less every hour away and every hour shut |
| Projection.FillPeriodStarts | loaf_forecast.py:581-595 | the window of each pay date, built as the loop builds it |
| Projection.PeriodStartAt | loaf_forecast.py:593-595 | a pay date's window begins at the date generated before it |
| Projection.EmptyWindow | loaf_forecast.py:593-595 | whatever the cadence, a window is empty exactly when its date was generated twice |
| RepeatedDates.GeneratedTwice | bucket_utils.py:69-116 | by the month, a date is generated twice exactly when it is its month's last and that day is listed both by number and as the last |
| RepeatedDates.ThirtiethRepeats | bucket_utils.py:69-116 | the 30th and the last day give one date twice in every month of thirty days |
| RepeatedDates.WindowIsEmpty | loaf_forecast.py:593-595 | the window of a monthly pay date is empty exactly when the date is listed twice over |
| RepeatedDates.EmptyWindowEarns | loaf_forecast.py:650-684 | pro-rated over an empty window: nothing when the week is walked, the whole accrual under a fixed periodHours |
| RepeatedDates.ThirtiethAndLast | loaf_forecast.py:593-684 | paid on the 30th and the last day and pro-rated by the week, a month of thirty days earns nothing on its last day |
| Projection.Project | loaf_forecast.py:514-728 | the projection: start, horizon, pay dates and windows, turns, and the walk over them |
| Projection.TermsAre | loaf_forecast.py:544-609 | what a projection is made from: its first day, its last, its turns and its pay dates |
| Projection.EarnedTells | loaf_forecast.py:581-595 | each pay date earns what the period from the date generated before it earns |
| Projection.ProjectionIsDaily | loaf_forecast.py:514-747 | project read by balance_on is, on every date, the day-by-day simulation |
| Projection.FurtherChangesNothing | loaf_forecast.py:553-609 | projecting further never changes a balance already projected |
| Projection.AbsenceEarnsLess | loaf_forecast.py:650-684 | more absence lowers what pay dates earn and changes no other term |
| Projection.TestTimeOff | loaf_app.py:1114-1125 | a proposed booking never raises a balance and lowers it by at most its hours plus the accrual they cost; on a flat accrual by at most its hours |
| Preview.PriceIsAway | loaf_forecast.py:185-230 | a booking's hours away are its price on every day exactly when every day it takes hours from is billed |
| Preview.PreviewAndSaved | loaf_app.py:1114-1125 | saving never leaves more than the preview showed, and leaves the same on a flat accrual or when every day of the booking is billed |
| Preview.SavedTheSameExactly | loaf_app.py:1114-1125 | saving leaves every basket of the job the same as the preview, on every day, exactly when no pay date's window has hours taken from it that the preview did not take while some were left |
| Preview.SameUnderAnyPayExactly | loaf_app.py:1114-1125 | that is so whatever the pay periods of the job exactly when every day the booking takes hours from is billed |
| Preview.PreviewShowsMore | loaf_app.py:1114-1125 | a Thursday and an unbilled Friday off: the preview shows 3.60 earned, saving leaves 3.20 |
| Bookings.SplitByDay | loaf_forecast.py:109-177 | the hours of a booking day by day, whichever question is asked |
| Bookings.HoursOfADay | loaf_forecast.py:109-177 | a day of a booking, in minutes: within it, worked, attended, open, and billed when the price is asked; the whole shift less its pause, or the part of it between the two times |
| Bookings.NoHoursOfADay | loaf_forecast.py:109-140 | a day with no shift, or of a booking that does not end after it starts, takes nothing |
| Bookings.PriceIs | loaf_forecast.py:185-230 | the price day by day: nothing when cancelled, its hours, or the typed figure shared out as they are, or put on the first day |
| Bookings.FactoredIs | loaf_forecast.py:210-221 | a share of a typed figure is so many hours of the total, of it |
| Bookings.WholeShiftIsAllDay | loaf_forecast.py:160-174 | times that bracket a shift cost what a whole day does; times outside it cost nothing |
| Bookings.PriceIsBilledAbsence | loaf_forecast.py:140-177 | the price is the absence on billed weekdays and nothing elsewhere |
| Bookings.PriceAndAbsenceAgree | loaf_forecast.py:185-230 | for a booking that costs anything, price and absence agree on every billed day, typed figure or not |
| Bookings.TypedTotalIsKept | loaf_forecast.py:210-221 | a typed total is kept to within half a hundredth for each day of the range |
| Bookings.NothingNegative | loaf_forecast.py:185-230 | no day of a booking is negative when its typed hours are not |
| Bookings.Gather | loaf_forecast.py:233-328 | usage, credits and absence by date: the accumulating loop |
| Bookings.OneMore | loaf_forecast.py:233-328 | one entry more adds its own part to each day and nothing else |
| Bookings.OneMoreCounts | loaf_forecast.py:233-328 | what one entry more counts for on a day, by its direction and its basket |
| Bookings.BookedBeyond | loaf_forecast.py:889-920 | the first day asked for more than it holds, or none when every day fits |
| Bookings.ClashTells | loaf_forecast.py:872-920 | the first day asked past the hours workable on it, what is taken of it and what it holds |
| BookingGuard.RefusedExactlyWhenFull | loaf_forecast.py:905-920 | a booking is refused exactly when it would put some billed day past what it holds, every pool counted |
| BookingGuard.StoredAsMeasured | loaf_app.py:925-945 | storing a booking keeps what the guard measured |
| BookingGuard.StoredAt | loaf_app.py:925-945 | time off is stored at the hours it costs unless they were typed, anything else as it is |
| BookingGuard.Desk.Refusal | loaf_app.py:948-1000 | by its own job's week and bookings: unworkable exactly when it costs nothing, and let by exactly when every billed day has room for it |
| BookingGuard.Desk.Create | loaf_app.py:1005-1026 | a booking is added or refused with its reason, by the job its basket is on; no billed day of any job is ever past what it holds |
| BookingGuard.Desk.Update | loaf_app.py:1031-1059 | an edited booking, moved to another job or not, is not counted against itself; no billed day of any job is ever past what it holds |
| BookingGuard.Desk.Delete | loaf_app.py:1064-1070 | the row goes and nothing else; the invariant is kept |
| BookingGuard.ReplacedOnDay | loaf_forecast.py:909-911 | an edit counts everyone else's hours and the new ones |
| BookingGuard.AddedAllHold | loaf_app.py:1005-1026 | a booking its own job's guard let through leaves every job's billed days within what they hold |
| BookingGuard.EditedAllHold | loaf_app.py:1031-1059 | so does one edited, whichever job it was on before |
| UnbilledDays.LetThroughHolds | loaf_forecast.py:889-920 | bookings let through in turn keep every billed day within what it holds |
| UnbilledDays.BookInTurn | loaf_app.py:1005-1026 | such bookings are what the desk saves, made there in turn |
| UnbilledDays.OnlyUnbilled | loaf_forecast.py:889-920 | a day past what it holds is one nobody bills, taken together with one somebody does |
| UnbilledDays.TakenPastExactly | loaf_forecast.py:889-920 | bookings let through can take a day past what it holds exactly when nobody bills it and it can be taken together with a billed day, holidays and all |
| UnbilledDays.TakenPastByTheWeek | loaf_forecast.py:889-920 | with no holidays: exactly when it is worked and unbilled and some weekday is worked and billed |
| UnbilledDays.UnbilledDayTakenTwice | loaf_forecast.py:889-920 | whole days off from a billed day up to an unbilled one, and from that up to the billed weekday again, both pass and take the day between twice |
| Backfill.ReplayYear | loaf_app.py:345-363 | the year replayed from nothing: what it earned, what its first day left, whether anything happened |
| Backfill.ReplayFromNothing | loaf_app.py:345-355 | the replay begins with nothing |
| Backfill.Books.Decide | loaf_app.py:365-407 | the four outcomes of the replay and what each makes of the basket and the entries |
| Backfill.Books.BackfillYear | loaf_app.py:289-407 | the whole backfill as a change of basket and entries |
| Backfill.DecidedTells | loaf_app.py:365-407 | what the replay makes of the basket and its entries, figure by figure |
| Backfill.BackfilledTells | loaf_app.py:289-345 | when the year is replayed at all |
| Backfill.OpenedReads | loaf_app.py:356-363 | a basket opened with what its year's first day left reads what the replay earned, less what is put down for today |
| Backfill.EveryBranchReadsStated | loaf_app.py:318-407 | every way out leaves a new basket that later reads exactly the stated hours at the end of today, on a flat accrual or with no hours away in any period paid since the year began |
| Backfill.OpeningTurnIsAnEvent | loaf_app.py:365-370 | the turn that opens the year is always an event, so that branch is never taken |
| Payday.MeasureBalance | loaf_app.py:1163-1170 | what Loaf has at the end of a day |
| Payday.Job.PaydayChecks | loaf_app.py:1183-1206 | the last payday of one job and the baskets to ask about, with their balances |
| Payday.LastPaydayIs | loaf_app.py:1183-1190 | the last payday is the latest one of the last four hundred days |
| Payday.DueIs | loaf_app.py:1187-1206 | asked about: a basket that earns, not checked since and begun before the payday |
| Payday.ListChecks | loaf_app.py:1173-1207 | every job with something to ask, in order, its last payday and the baskets to ask about |
| Payday.OtherJobsAreAskedTheSame | loaf_app.py:1173-1207 | whatever is booked on other jobs, their answers included, a job is asked the same |
| Payday.Job.Answer | loaf_app.py:1223-1264 | the corrections written and the baskets marked, up to the first figure that cannot be read |
| Payday.CorrectionTells | loaf_app.py:1243-1262 | a figure other than what Loaf had is one entry on the payday, for the difference and by its sign |
| Payday.CorrectionIsFor | loaf_app.py:1243-1262 | nothing else is put in |
| Payday.ReadableTells | loaf_app.py:1243-1250 | answers are taken up to the first that cannot be read |
| Payday.DueIsDistinct | loaf_app.py:1187-1206 | each basket is asked about once |
| Payday.CorrectionGathers | loaf_app.py:1251-1262 | a correction moves its own basket's credits or usage and nobody's absence |
| Payday.AnswerEarnsNothing | loaf_app.py:1243-1264 | no pay date of any basket earns differently after an answer |
| Payday.AnswerReads | loaf_app.py:1243-1264 | projecting again gives exactly the employer's figure on the payday, if and only if the figures agreed or the walk has begun by then; earlier days are unchanged |
| Payday.StampChangesNothing | loaf_app.py:1263 | being marked as checked changes nothing projected |
| Payday.NothingLeftDue | loaf_app.py:1187-1201 | answered in full, no basket is asked about for that payday again |
| Buckets.EntryHasItsRecord | bucket_utils.py:1446-1490 | when the stores agree every live forecast has exactly one record, at its original period, for its amount |
| Buckets.GoneExactlyWhenSpent | bucket_utils.py:1474-1510 | a forecast is gone exactly when its record is at or below nothing |
| Buckets.FindNext | bucket_utils.py:276-434 | the forecast spending draws on: for a bill the latest due, else the first ahead; for an allowance the first of today and the next forty-five days, unless two live ones lie no further apart than it is ahead |
| Buckets.SpentAlready | bucket_utils.py:405-422 | a period is the least distance between any two forecast days |
| Buckets.FindWeekday | bucket_utils.py:1348-1369 | the loop back over a week finds the latest listed weekday up to the day, or none |
| Buckets.PeriodIsTheLastOccurrence | bucket_utils.py:1304-1383 | every week, or every month on a day all months have, the period looked up is the last occurrence up to the day |
| Buckets.PeriodByWeek | bucket_utils.py:1346-1369 | by the week, the latest listed weekday of the last seven days, none exactly when none is listed |
| Buckets.PeriodByMonth | bucket_utils.py:1318-1345 | by the month, whatever day is listed first: the last day up to this one that shows it, a short month on its last |
| Buckets.PeriodByYear | bucket_utils.py:1371-1383 | by the year, the last day up to this one of that month and number |
| Buckets.NoPeriodFound | bucket_utils.py:1304-1383 | by the day, by a month's last or with no day named there is none to be found |
| Buckets.QuarterlyAllowance | bucket_utils.py:1304-1546 | an allowance for a quarter: spending in its first month takes from a record still forecast, and in its second from no record at all |
| Buckets.Store.CreateRecord | recurring_bucket_manager.py:30-122 | a record is added with an unused temporary id, or the one there is kept |
| Buckets.Store.Plan | app.py:5312-5340 | the cell's forecast is given the amount or one is added, and then a record unless the period has one; the stores agree afterwards, and the records stay in date order, exactly when stated |
| Buckets.PlanAgrees | app.py:5242-5340 | planning leaves the stores agreeing exactly when cell and period are both free, or both taken and the forecast there is of that amount already |
| Buckets.Store.SubtractFromEntry | bucket_utils.py:882-972 | an amount off a forecast, which is deleted when nothing is left |
| Buckets.Store.SubtractFromRecord | recurring_bucket_manager.py:266-328 | an amount off a record, which may go below nothing |
| Buckets.Store.Deplete | bucket_utils.py:1304-1550 | a manual entry draws on the next forecast and its record alike, or on the record of the period its day falls in; the stores agree afterwards if and only if that was not a period still forecast |
| Buckets.DirectTells | bucket_utils.py:1511-1546 | with no forecast to draw on: the spending, or for a bill all that is left, off the first record of its period |
| Buckets.TakingBothAgrees | bucket_utils.py:1465-1490 | taking the same from an entry and its record keeps them agreeing |
| Buckets.TakingFromTheRecordAlone | bucket_utils.py:1511-1546 | taking from the record alone keeps them agreeing exactly when nothing was left to forecast |
| Buckets.Store.SettleRecord | bucket_confirmation.py:601-649 | the first record of the category on either date is dropped |
| Buckets.Store.Resolve | bucket_confirmation.py:652-818 | the four answers, figure by figure: one that came through is no forecast any more and holds the amount stated, or its own; one put off keeps its period; one skipped is gone; its record goes with the first two and the last. The stores go on agreeing, and forecasts stay put off rather than brought forward exactly when a deferral is to no earlier than its period |
| Buckets.ResolvedTells | bucket_confirmation.py:652-818 | what each answer makes of the row and its record |
| Buckets.AnswerAgrees | bucket_confirmation.py:628-641 | an answer settles its own record, and the stores go on agreeing, exactly when no record of the category dated on the day the forecast sits on comes before it |
| Buckets.OwnRecordFirst | bucket_confirmation.py:628-641 | with records in date order and forecasts only put off, an answer settles its own |
| Buckets.DeferralAgrees | bucket_confirmation.py:763-797 | deferring moves the entry, not its period, and keeps the stores agreeing |
| Buckets.AnswerSettlesAnother | bucket_confirmation.py:628-641 | two months of one rent for which answering one settles the other |
| Buckets.RestoringAgrees | bucket_utils.py:1618-1681 | restoring keeps the stores agreeing exactly when a live period has its own forecast on its day, brought to the same figure, and a spent one disturbs no other and comes back with nothing or its whole plan |
| Buckets.RestoredTells | bucket_utils.py:1618-1681 | what giving an amount back makes of both lists, figure by figure |
| Buckets.GivenBackTwice | bucket_utils.py:1618-1681 | an allowance all spent and given 20 back: the record has 20 and its forecast 40 |
| Buckets.GivenBackBeside | bucket_utils.py:1642-1681 | a forecast put off from its day and given 20 back: a second one is written for its period |
| Buckets.RestateRecord | recurring_bucket_manager.py:433-500 | a restated plan keeps what was spent |
| DeferUnmatched.SettleUnmatched | bank_import.py:1125-1177 | the pass over one table: the entries after it, how many were moved and how many released, the earliest day any sat on, both stores still agreeing |
| DeferUnmatched.OneRowMore | bank_import.py:1109-1174 | what each row comes to: left alone, let go, or put off to the day after the last reported |
| DeferUnmatched.NothingStaysOpen | bank_import.py:1150-1177 | no forecast stays open on or before the last day reported |
| DeferUnmatched.SecondPassChangesNothing | bank_import.py:1150-1177 | a second pass changes nothing |
| DeferUnmatched.ObligationsSurvive | bank_import.py:1166-1174 | every bill or one-off comes through with its id, its amount and the date it was first for |
| DeferUnmatched.OnlyAllowancesAreReleased | bank_import.py:1109-1170 | what is released is exactly the recurring allowances whose period is over |
| Paychecks.ListDayHours | pay_forecast.py:197-223 | scheduled, holiday, time off and worked hours of each day |
| Paychecks.DayAccountsFor | pay_forecast.py:197-223 | a day's figures account for what was scheduled, unless time off is more than a holiday leaves of it |
| Paychecks.OvertimeHours | pay_forecast.py:234-244 | the hours over forty of each workweek ending in the period |
| Paychecks.OncePerWorkweek | pay_forecast.py:234-244 | over tiling periods with one week end, each workweek is charged once |
| Paychecks.EachCheckItsOwnWeek | pay_forecast.py:226-244 | paid by the week in periods of at most a week, every check charges the seven days up to its own end |
| Paychecks.TwoPaydaysAWeek | pay_forecast.py:226-244 | paid twice a week, one week's two checks charge two overlapping workweeks; more than one exactly when the first is over forty too |
| Paychecks.Paycheck | pay_forecast.py:276-310 | gross and net of an hourly check, or of a salary spread by the job's cadence |
| Paychecks.TimeAndAHalf | pay_forecast.py:276-310 | a week of work alone: time and a half over forty hours, straight time with overtime off |
| Paychecks.PaidByTheWeek | pay_forecast.py:226-306 | by the week: straight time for every hour paid, and half again for what the seven days up to the end have worked over forty |
| Paychecks.PaidOtherwise | pay_forecast.py:226-306 | otherwise the week charged is the one up to the Saturday |
| Paychecks.SalaryKept | pay_forecast.py:249-297 | a salaried check is its share of the year, less the part of the hours counted that is unpaid |
| Paychecks.ChecksOfAYear | pay_forecast.py:249-273 | how many checks there are in a year, by the cadence |
| Paychecks.TakenHome | pay_forecast.py:306-310 | net is the percentage of gross to half a cent: all of it at a hundred, nothing at nothing, never more than it between |
| Paychecks.SalaryOfAYear | pay_forecast.py:249-310 | with nothing unpaid, the checks of any run come to their share of the salary to half a cent a check; those of a year to the yearly figure |
| Paychecks.UnpaidTakesFromASalary | pay_forecast.py:294-297 | unpaid time only ever takes from a salary, which is whole without it and nothing once every hour counted is unpaid |
| Paychecks.GrossNearEarnings | pay_forecast.py:298-306 | the checks of a run come to straight time and half-premium within half a cent a check |
| PayPeriods.ShiftPayday | pay_forecast.py:104-113 | the payday after moving off closed days |
| PayPeriods.NearestOpenDay | pay_forecast.py:104-113 | it is the nearest open day on that side, or fourteen days off when none is |
| PayPeriods.ShiftKeepsOrder | pay_forecast.py:104-113 | moving paydays never makes a later one arrive earlier |
| PayPeriods.ListPayPeriods | pay_forecast.py:132-166 | the periods whose money lands in a window, for any closed days |
| PayPeriods.CheckTells | pay_forecast.py:132-166 | each check: paid within the window on a day its date moves to, for a period that ends the lag before that date and begins the lag after the date before it |
| PayPeriods.PaydayMoves | pay_forecast.py:104-113 | a payday is moved over shut days only, onto an open one unless fourteen were not enough |
| PayPeriods.PeriodsTile | pay_forecast.py:156-166 | any ascending dates and order-keeping paydays give periods with no gap and no overlap |
| PayPeriods.PayPeriodsTile | pay_forecast.py:132-166 | pay_periods, for every cadence, window, rule and run of closed days, lists periods that follow one another with no gap and no overlap |
| PayPeriods.WindowsComposeExactly | pay_forecast.py:132-166 | a window's paychecks are those of its two halves exactly when the second half, looking back from its first date, finds the one before it |
| PayPhase.PayDateBeforeIs | loaf_forecast.py:400-430 | _pay_date_before is the last date before, in the series begun one cadence back |
| PayPhase.PhaseKeptExactly | loaf_forecast.py:361-430 | in every window of an anchor _pay_date_before finds the date before, exactly for these cadences: by the day; every week, or on one weekday; by month or year when every one stepped onto has a date, or none has |
| PayPhase.TwoInOneWeek | loaf_forecast.py:400-430 | every other week or less often, the later of two dates in seven days is never traced back to the earlier |
| PayPhase.TwoWeekdaysLoseIt | loaf_forecast.py:400-430 | several weekdays every other week or less often lose the phase in the very first window |
| PayPhase.EveryMonthDated | loaf_forecast.py:400-430 | months with the last day listed, or a day up to the 28th, keep it |
| PayPhase.UndatedLoses | loaf_forecast.py:400-430 | a date whose period before has none, though an earlier one has, is not traced to it |
| PayPhase.EveryYearDated | loaf_forecast.py:400-430 | by the year on any day up to the 28th, or on none named, it is kept |
| Cuts.FirstOfAWeekIsTraced | loaf_forecast.py:400-430 | by the week, the first date of a series begun any whole number of cadences later is traced to the date before it |
| Cuts.WindowsCompose | pay_forecast.py:132-166 | by the week, on a cadence that keeps its phase, or from an anchor before the window: a window's paychecks are those of its two halves |
| Cuts.BrokenCut | pay_forecast.py:132-166 | cut between two dates, the second paid in the second half and not traced to the first, they are not |
| Cuts.CutsAnywhereExactly | pay_forecast.py:132-166 | whatever days are closed and however paydays move, windows are their halves wherever they are cut exactly when the cadence goes by the week or keeps its phase |
| Cuts.ShortMonthMisplaces | pay_forecast.py:132-166 | paid on the 31st and cut in February's wake, March's check begins at the end of February and not of January |
| PayPhase.PeriodsPay | pay_forecast.py:144-166 | a nominal date has a check in a window exactly when it is generated for it and its money lands in it |
| PayPhase.LostPastTheMargin | pay_forecast.py:144-148 | a check whose payday moved past the margin is in neither half of a window cut where it lands |
| PayPhase.ElevenDaysShut | pay_forecast.py:104-166 | eleven days shut before a Friday payday are such a case |
| PayPhase.OvertimeOnceOverAWindow | pay_forecast.py:132-244 | over any window, unless paid on several weekdays, the checks of pay_periods charge each workweek ending in them once |
| ClosedDays.ListBankHolidays | pay_forecast.py:85-101 | the bank's holidays of a span, year by year |
| ClosedDays.BankKeepsItsFridays | pay_forecast.py:60-101 | the bank's day and the job's differ exactly when the holiday is a Saturday, whose Friday only the job takes off |
| ClosedDays.BankDayIsItsYears | pay_forecast.py:85-101 | a bank's holidays are the same whatever span they are asked for within |
| ClosedDays.ClosedAlike | pay_forecast.py:126-156 | two spans agree about the closed days six days inside them both, so windows agree about their paydays |
| ClosedDays.ListJobPeriods | pay_forecast.py:126-166 | pay_periods with its closed days worked out |
| ClosedDays.NearExactly | pay_forecast.py:104-148 | no payday moves past the margin exactly when eleven days are never shut in a row |
| ClosedDays.NeverElevenShut | pay_forecast.py:60-129 | whichever public holidays a job keeps, with none of its own eleven days are never shut in a row |
| ClosedDays.JobWindowsCompose | pay_forecast.py:126-166 | a job's paychecks over a window are those of its halves, each half working out its own closed days |
| ClosedDays.JobCutsAnywhereExactly | pay_forecast.py:126-166 | for a job never shut eleven days running, that is so wherever a window is cut exactly when its cadence goes by the week or keeps its phase, or it has no anchor |
| Reminder.FindNextDue | auto_balance.py:360-427 | the next due day: the first day on the list within 799, or one interval on with no list or none within reach |
| Reminder.NextDueIs | auto_balance.py:360-427 | what is on the list and what an interval is, for each unit |
| Reminder.OccursWhen | auto_balance.py:304-348 | the cadence's own days, for each unit, list or none |
| Reminder.NextDueIsLater | auto_balance.py:360-427 | it is strictly later in every branch |
| Reminder.AdmitsOccurrences | auto_balance.py:304-348 | from the anchor on, the scan takes exactly the occurrences |
| Reminder.LeastLaterOccurrence | auto_balance.py:395-427 | for a list, it is the least later occurrence whenever one lies within the scan |
| Reminder.WeekdaysWithinTheScan | auto_balance.py:395-410 | a list of weekdays has one within the scan for any interval that fits in it |
| Reminder.MonthDaysWithinTheScan | auto_balance.py:395-410 | the last day, or a day up to the 28th, comes within the scan for any interval up to 24 months |
| Reminder.ScanComesUpEmpty | auto_balance.py:395-411 | from an occurrence the scan of listed weekdays finds none exactly when none is left in that week and none comes round again within its reach |
| Reminder.MondayIsSteppedOver | auto_balance.py:395-411 | Mondays and Thursdays of every 120th week: the Monday is stepped over |
| Reminder.FallbackByWeekday | auto_balance.py:411-427 | past the scan, a list of weekdays falls back on an occurrence, the least later one exactly when it is the only weekday listed |
| Reminder.OnScheduleWhile | auto_balance.py:360-393 | with no list, claims made on time stay on occurrences exactly as long as no month shows a later day than the one before |
| Reminder.OneDayFromTheAnchor | auto_balance.py:360-393 | begun on the anchor, that is when no month stepped onto is too short for its day, as none is for any up to the 28th |
| Reminder.OnScheduleForever | auto_balance.py:360-393 | for good, exactly when every month stepped onto in one round of the calendar shows the day it began on |
| Reminder.LostAfterFebruary | auto_balance.py:360-393 | anchored on 31 January: February's last day, and then the same number in March, which is no occurrence |
| Reminder.RunKeepsToTheSchedule | auto_balance.py:360-476 | over any run of claims, raises and edits whose wins are on time, the day due next is an occurrence throughout exactly under that condition on its wins |
| Reminder.ClaimStays | auto_balance.py:360-393 | with no list, a claim on any day, late or not, leaves the day due next on an occurrence exactly when it is made on a day the schedule can be kept from |
| Reminder.LateByWholeIntervals | auto_balance.py:376-384 | by days or weeks, exactly when it is late by whole intervals |
| Reminder.RunStaysOnSchedule | auto_balance.py:360-476 | over any run, late claims included, the day due next is an occurrence throughout exactly when every win is made on such a day |
| Reminder.FirstDue | auto_balance.py:228-242 | the first due day is today exactly when today is an occurrence and its time has not gone by |
| Reminder.Prompt.ClaimDue | auto_balance.py:437-476 | the claim: who wins, and the prompt and the next due day it leaves |
| Reminder.Prompt.RaiseNow | auto_balance.py:479-507 | a prompt waiting is not moved, nor is the cadence |
| Reminder.Prompt.ClearPending | auto_balance.py:510-521 | setting the prompt aside leaves the cadence alone |
| Reminder.NeverGoesBack | auto_balance.py:437-476 | over any run of events the day due next never decreases |
| Reminder.OneWinADay | auto_balance.py:437-476 | under any interleaving, a later win is for a later day |
| Reminder.FirstClaimWins | auto_balance.py:437-476 | a prompt that is due is won by whoever claims first |
| Confirming.HeadAnswered | bucket_confirmation.py:223-340 | yes to the first line of the prompt takes that line off it and leaves the rest in order |
| Confirming.AskedAbout | bucket_confirmation.py:223-340 | the prompt asks about exactly the forecasts of something, due by the day, in categories the bank does not answer for |
| Confirming.AskedInOrder | bucket_confirmation.py:223-340 | the latest first, and of one day the names backwards |
| Confirming.YesTells | bucket_confirmation.py:730-745 | yes leaves the forecast's own figure as what happened |
| Confirming.LinesLeave | auto_balance.py:958-1009 | the first n lines answered, what is left to ask is the rest |
| Confirming.AllAnswered | auto_balance.py:958-1009 | every line is answered exactly when no two neighbours share an id |
| Confirming.SameIdStalls | auto_balance.py:985-1003 | two tables' forecasts of one id: the second is taken for the first and left |
| Confirming.Tables.ResolveLine | bucket_confirmation.py:652-760 | one line answered changes its own store alone |
| Confirming.Tables.ConfirmPending | auto_balance.py:958-1009 | the loop, re-reading each time: how many are answered, the three lists after, what is left to ask; its bound on attempts is never what stops it |
| BalanceMatch.CellSetTotals | auto_balance.py:1149-1171 | setting a cell leaves one real row with the amount, or none, and moves the balance by exactly the difference |
| BalanceMatch.RowOfTheCell | auto_balance.py:1149-1171 | the one row left in it has happened, and is paid |
| BalanceMatch.CellSetElsewhere | auto_balance.py:1149-1171 | every other cell holds what it did |
| BalanceMatch.CellOneMore | auto_balance.py:1128-1141 | a cell holds the real rows of its category and day |
| BalanceMatch.SideOneMore | auto_balance.py:580-604 | a row counts from its day on, unless it is an open forecast and they are left out |
| BalanceMatch.NetOneMore | auto_balance.py:526-578 | income is added and spending taken away |
| BalanceMatch.Accounts.MeasuredIs | auto_balance.py:1269-1285 | a side is measured with its forecasts taken out only when told to be, and of a table the feed answers for |
| BalanceMatch.CorrectionMoves | auto_balance.py:1174-1197 | a correction moves the balance by exactly the difference if and only if its target has a category on its side; at most one side holds anything |
| BalanceMatch.Accounts.WriteCorrection | auto_balance.py:1174-1197 | the two cells after a correction |
| BalanceMatch.DrawingMoves | auto_balance.py:1336-1352 | drawing on a forecast leaves every real row, and moves a side exactly when the forecast was due by the day and counted |
| BalanceMatch.ConfirmingMovesNothing | auto_balance.py:958-1009 | answering lines of the prompt, each on its own store, moves no stored total |
| BalanceMatch.AnsweringMoves | bucket_confirmation.py:740-762 | answered with an amount, a forecast moves the stored total by that less its own figure |
| BalanceMatch.AnsweredIsQuiet | auto_balance.py:958-1009 | every line answered, no forecast is due on a table the feed leaves alone |
| BalanceMatch.Accounts.Correct | auto_balance.py:1286-1352 | from measuring on: nothing written when the figures agree, refused without a category, otherwise the two cells hold the difference added to what they held, on one side, every other cell what it did; no real row moves by the drawing, and the balance is exact on the stated condition |
| BalanceMatch.Accounts.Apply | auto_balance.py:1248-1352 | the cash match whole: pending forecasts answered first when asked, forecasts of fed tables left out when asked, then the correction; no cell has a forecast it had not, and with every line answered nothing is pending |
| BalanceMatch.MatchingAgainAgrees | auto_balance.py:1292-1334 | a correction with a side brings the lists, before anything is drawn on, to the stated balance, and makes no forecast due that was not |
| BalanceMatch.Accounts.ApplyTwice | auto_balance.py:1248-1352 | with every forecast answered or left out, the match made again answers nothing and, unless it writes, changes no list; the figures agree exactly when they did at first or the correction had a side to go to |
| BalanceMatch.ShortOfASide | auto_balance.py:1174-1197 | a refund in the only correction category, where the match is not exact |

## Left out

- Floating point: cents, hundredths and exact reals stand in for it, so the
  source's tolerances of half a hundredth become exact comparisons.
- Python's date range (years 1 to 9999) and the errors outside it; days run on in
  both directions here.
- Flask routes, forms, Redis and MySQL mechanics, notifications and logging. What
  form cleaning refuses (negative hours, an interval below one) is a precondition.
- Time zones and clocks: `today`, and whether a time of day has gone by, are inputs.
- Category guessing, `create_entries`, `feed_as_of`, `locked_day` and the summary
  figures (`_summarise`, `month_rows`, `_weekly_series`): easier members.
- Loops that only collect or sum (`sum(...)`, comprehensions, a dictionary merged
  into another) are expressions here rather than loops of their own.
- LinkedStore.LinkedTransactions.BulkUpsert: rows are values rewritten in a
  sequence, so two references to one cached row are not modelled.
- BookingGuard.JobOf: a basket on no job, which reads the week it still has of its own
  (`loaf_data.py:221-228`).
- BookingGuard.RefusedExactlyWhenFull: bookings on weekdays nobody bills are
  outside the invariant, because the code lets them through.
- Payday.Job.Answer: the pools counted are the visible ones, as the check itself
  counts them; the summary page counts hidden ones too and may show another
  figure for a pro-rated basket.
- Buckets.Store.Plan: a forecast typed by hand onto a day that has one, whose amounts
  `app.py:3797-3839` adds up.
- Buckets.Store.Resolve: moving a bundle's items and mirroring a card payment are
  left out.
- Buckets.RestoringAgrees: from the record that was found on; the search for it and
  the older restore paths are left out.
- DeferUnmatched.SettleUnmatched: one table at a time.
- ClosedDays.JobWindowsCompose: with holidays of the job's own it needs fewer than
  eleven days shut in a row, because `PayPhase.ElevenDaysShut` loses a check
  otherwise.
- ClosedDays.JobCutsAnywhereExactly: the same; and the cut it finds where windows do
  not compose may lie before the year 1, since days run on in both directions.
- Reminder.Prompt.ClaimDue: the settings are fixed over a run, and the UPDATE is
  one step.
- BalanceMatch.Accounts.Apply: the cash figure; savings and cards are corrected by
  the same cell arithmetic. A correction's own cell holds no unanswered forecast,
  because what `app.py:5342-5600` does to one there, deleting it with its record and
  restoring others, is not part of this model.
