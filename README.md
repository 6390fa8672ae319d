# Delivery Chefinho: weekly settlement, in Dafny

Two partners, Rafael and Guilherme, run a delivery business. Each week ends on a
Wednesday. When a week is closed, the backend adds up each partner's expenses
for the seven days that end on that Wednesday. It takes the week's income from
the two delivery platforms (iFood and 99) and a rent fee that goes to Rafael.
It splits what is left between the partners by their stored ratios, under one
of two rules: `rent_before_split` or `rent_after_split`. It stores a payout row
and a settlement row, with the breakdown written as a JSON object, and answers
with the nine-amount breakdown. A stored settlement can be read back later.

This project models that core:

- `settlement.dfy` (module `Settlement`): the settlement engine, `compute_settlement`.
  - Arithmetic is exact (`real`).
  - Every output is rounded to hundredths, half-up, away from zero.
  - An unknown rule is an error.
- `payouts.dfy` (module `Payouts`): the close-week route and the read-back route.
  - The database is a `Session` class whose `partners`, `expenses` and `closed`
    fields the `CloseWeek` method updates.
  - The breakdown JSON is a map from keys to texts.
  - Reading a settlement back parses those texts again.
- `scheduler.dfy` (module `Scheduler`): the weekly clock.
  - `week_bounds`, `current_wednesday`, `next_wednesday_at` and
    `is_within_reminder_window`.
  - A timezone is modelled by its two offset functions.
- `calendar.dfy` (module `Calendar`): Python `date`.
  - Proleptic Gregorian day ordinals, `weekday()`.
  - `isoformat` and `fromisoformat` on `YYYY-MM-DD`, with their round trips.
- `decimals.dfy` (module `Decimals`): the decimal texts of the breakdown.
  - `format(x, "0.2f")` on whole hundredths, and `Decimal(text)` on plain decimal
    notation, with their round trips.
- `db.dfy` (module `Db`): the rewrite of a Postgres URL to the psycopg driver.
- `settings.dfy` (module `Settings`): the CORS origin list and the Supabase
  storage configuration, derived from the settings.
- `week_picker.dfy` (module `WeekPicker`): the frontend's week picker.
  - It snaps a day to the Wednesday of its Sunday-to-Saturday week.
  - It steps a week back or forward and formats dates as `YYYY-MM-DD`.
- `wrappers.dfy` (module `Wrappers`): `Option` and `Result`.

Representation choices:

- Dates are day ordinals, with 0001-01-01 as day 1. Python's `weekday()` is
  `(d + 6) % 7`, so Wednesday is 2. dayjs's `day()` is `d % 7`, so Wednesday is 3.
- Instants are whole seconds on the same scale: `d * 86400` is midnight UTC of day `d`.
- Stored amounts and request amounts are whole hundredths, as the `Numeric(12, 2)`
  columns and the two-decimal `Money` fields hold them.

## Model

| member | source | states |
|---|---|---|
| Settlement.ToDecimal | backend/services/settlement.py:10-13 | A Decimal argument passes through unchanged and an int keeps its value. A text argument succeeds exactly when it reads as a decimal, with the value it reads as. |
| Settlement.Cents | backend/services/settlement.py:16-17 | The result is the nearest whole number of hundredths. Ties go away from zero: within half a hundredth, with the open end on the side of zero. |
| Settlement.CentsUnique | backend/services/settlement.py:16-17 | Any count of hundredths in that half-up interval is the rounding, so the rounding is unique. |
| Settlement.CentsOfHundredths | backend/services/settlement.py:16-17 | A value that already has two decimal places is left as it is. |
| Settlement.CentsOdd | backend/services/settlement.py:16-17 | Rounding is symmetric about zero. |
| Settlement.CentsError | backend/services/settlement.py:16-17 | The rounded value is within 0.005 of the exact value. |
| Settlement.CentsTies | backend/services/settlement.py:7 | 0.005 rounds to 0.01 and 0.025 to 0.03, both away from zero and not to even. 0.0049 rounds to 0. |
| Settlement.CentsMonotone | backend/services/settlement.py:16-17 | Rounding preserves order. |
| Settlement.ComputeSettlement | backend/services/settlement.py:41-54 | The result is an error exactly when the rule is neither of the two rule names, and the error names the rule. |
| Settlement.CommonFields | backend/services/settlement.py:37-39 | Under either rule, the output holds the rounded rent fee, the rounded sum of the two incomes and each partner's rounded reimbursement. |
| Settlement.MissingPartnerReimbursedNothing | backend/services/settlement.py:38-39 | A partner absent from the expense map is reimbursed 0 and is not an error. |
| Settlement.RentBeforeSplitFields | backend/services/settlement.py:41-46 | Rent before split: the pot is the income minus both reimbursements and the rent, and each share is the exact pot times that partner's ratio. Rafael gets his reimbursement, the rent and his share of the pot. Guilherme gets his reimbursement and his share. |
| Settlement.RentAfterSplitVersusBefore | backend/services/settlement.py:47-52 | Rent after split: the pot is exactly the rent larger, and each share is that larger pot times the partner's ratio. Each partner's total grows by the rent times that partner's ratio, and Rafael's total still includes the whole rent. |
| Settlement.RentAfterSplitNetInCents | backend/services/settlement.py:42-48 | With whole-cent inputs, the two rules' published pots differ by exactly the rent. |
| Settlement.PayoutsAddUp | backend/services/settlement.py:41-52 | When the ratios add up to one, rent before split pays out exactly the income. Rent after split pays out the income plus the rent. |
| Settlement.FieldsAreRounded | backend/services/settlement.py:56-66 | The published pot, both shares and both totals are each the half-up rounding (`Cents`, ties away from zero) of their own exact value, so each lies within half a hundredth of it. |
| Settlement.TotalsWithinOneCent | backend/services/settlement.py:56-66 | Rent before split, with ratios adding up to one: the published totals add up to the published income within one hundredth. |
| Settlement.SharesUseUnroundedNet | backend/services/settlement.py:41-52 | Under either rule, each published share is the half-up rounding of the exact pot times that partner's ratio. The pot is not rounded before it is shared. |
| Settlement.SharesUseUnroundedNetExample | backend/services/settlement.py:42-44 | A pot of 0.009 publishes as 0.01, while each half of it publishes as 0.00. |
| Settlement.BaseCase | backend/tests/test_settlement.py:9-19 | The base case: totals of 775.00 and 225.00, and a pot of 450.00. |
| Settlement.NoExpensesCase | backend/tests/test_settlement.py:22-28 | With no expenses: reimbursements of 0.00, a pot of 1450.00, and totals of 775.00 and 725.00. |
| Settlement.NegativeNetCase | backend/tests/test_settlement.py:31-35 | Losses are not clamped: a pot of -450.00 and totals of 625.00 and -25.00. |
| Settlement.UnknownRuleCase | backend/services/settlement.py:53-54 | An unknown rule name fails with that name. |
| Settlement.TextArgumentsCase | backend/services/settlement.py:10-13 | Text and int arguments, with an empty expense map, give the same breakdown as the equal Decimals with zero expenses. |
| Settlement.ComputeSettlementOf | backend/services/settlement.py:33-39 | On raw arguments: the result is an invalid-number error exactly when one of the seven normalised arguments is text that does not read as a number, and that error carries the text of one of those arguments. When every argument reads, the result is the settlement of the values read. A missing partner counts as zero. |
| Settlement.BadTextCase | backend/services/settlement.py:13 | Text that is not a number fails as an invalid number, before the rule is checked. |
| Decimals.IntTextRoundTrip | backend/services/settlement.py:13 | `Decimal(str(n))` has the value of the integer `n`. |
| Decimals.CentsTextRoundTrip | backend/routes/payouts.py:44-45 | The `0.2f` text of an amount in hundredths reads back as exactly that amount, sign included. |
| Decimals.CentsText | backend/routes/payouts.py:44-45 | The `0.2f` text has a point followed by exactly two digits, and it starts with a minus sign exactly for a negative amount. `CentsTextRoundTrip` shows that it reads back as its amount. |
| Decimals.ForeignCharRejected | backend/routes/payouts.py:54-62 | Text holding a character other than a digit, a point or a leading sign does not read as a decimal. |
| Calendar.Weekday | backend/services/scheduler.py:21 | `weekday()` is in 0..6. |
| Calendar.CivilOrdinal | backend/routes/payouts.py:110-111 | The year, month and day of a representable date are a valid date with that ordinal. |
| Calendar.OrdinalInjective | backend/routes/payouts.py:63-64 | A valid year, month and day name a representable date that converts back to the same triple. |
| Calendar.IsoText | backend/routes/payouts.py:110-111 | `isoformat()` writes ten characters. |
| Calendar.ParseDateText | backend/routes/payouts.py:63-64 | `fromisoformat` reads `YYYY-MM-DD` of a valid date as that date. |
| Calendar.IsoRoundTrip | backend/routes/payouts.py:63-64 | `fromisoformat(d.isoformat()) == d` for every representable date. |
| Calendar.IsoTextCanonical | backend/routes/payouts.py:63-64 | Text that reads as a date is that date's own `isoformat()`, so the text form is unique. |
| Calendar.ParsedInRange | backend/routes/payouts.py:63-64 | A date read from text is a representable date. |
| Scheduler.WeekBounds | backend/services/scheduler.py:9-13 | The window ends on the given day and is seven days long, both ends included. |
| Scheduler.WeeksPartitionDays | backend/services/scheduler.py:9-13 | Every day lies in the week of exactly one Wednesday. |
| Scheduler.NextWeekFollows | backend/services/scheduler.py:9-13 | The next week starts the day after this one ends. A Wednesday-ending week starts on a Thursday. |
| Scheduler.CurrentWednesday | backend/services/scheduler.py:16-22 | The result is a Wednesday between six days before and today's local date, and it is today when today is a Wednesday. |
| Scheduler.CurrentWednesdayUnique | backend/services/scheduler.py:16-22 | No other Wednesday is within those six days. |
| Scheduler.CurrentWeekEndsOnOrBeforeToday | backend/services/scheduler.py:16-22 | The current business week ended today at the latest. |
| Scheduler.NextWednesdayDate | backend/services/scheduler.py:33-43 | The chosen date is a Wednesday 0 to 9 local days ahead, and its hour:minute is strictly after `now`. Every earlier Wednesday from today on is not after `now`, so a target equal to `now` moves a week on. |
| Scheduler.WednesdaysFrom | backend/services/scheduler.py:35-36 | The first Wednesday on or after a day is at most six days away and is the only Wednesday in the seven days after it. |
| Scheduler.NextWednesdayWithinWeek | backend/services/scheduler.py:35-43 | In a zone with a fixed offset, the chosen Wednesday is at most seven days ahead. |
| Scheduler.NextWednesdayAt | backend/services/scheduler.py:25-45 | The returned instant is strictly after `now`. |
| Scheduler.NextWednesdayAtReadsLocally | backend/services/scheduler.py:37-45 | Where the wall-clock time exists, the result reads locally as a Wednesday at exactly hour:minute, today or later. |
| Scheduler.IsWithinReminderWindow | backend/services/scheduler.py:48-63 | True exactly when `now` is within the tolerance of the current Wednesday's target, on either side, ends included. |
| Scheduler.ReminderWindowEdges | backend/services/scheduler.py:62-63 | Exactly the tolerance away is inside the window, and one minute less of tolerance puts it outside. |
| Scheduler.ReminderTargetNotAhead | backend/services/scheduler.py:59-61 | The reminder's target reads locally as a Wednesday from six days ago up to today. |
| Scheduler.ReminderTarget | backend/services/scheduler.py:57-61 | The target is the current Wednesday at the configured local time. `ReminderTargetNotAhead` proves that it reads locally as a Wednesday from six days ago up to today, and `IsWithinReminderWindow` measures the window from it. |
| Payouts.GetPartners | backend/routes/payouts.py:26-30 | Fails with "Partners not seeded" exactly when fewer than two partners exist. Otherwise returns them unchanged. |
| Payouts.PartnersByNameCovers | backend/routes/payouts.py:82 | Every partner's name is a key, and each key maps to a partner of that name. |
| Payouts.PartnerFoundByName | backend/routes/payouts.py:82 | With unique names, each partner is found under its own name. |
| Payouts.SumExpensesAppend | backend/routes/payouts.py:33-41 | A new expense row adds its amount exactly when it is the partner's and is dated within the window. |
| Payouts.SumExpenses | backend/routes/payouts.py:33-41 | The sum of the partner's expense amounts dated within the window, ends included, or 0 when there are none. `SumExpensesAppend`, `SumExpensesConcat` and `SumExpensesZeroIffNone` state this for every list of rows. |
| Payouts.SumExpensesConcat | backend/routes/payouts.py:33-41 | The sum over two batches of rows is the sum of the two sums. |
| Payouts.SumExpensesZeroIffNone | backend/routes/payouts.py:33-41 | With positive amounts, the sum is never negative, and it is 0 exactly when no row counts. |
| Payouts.ExpensesMapTotals | backend/routes/payouts.py:92-94 | The expense map has one entry per partner name, holding that partner's sum for the week. |
| Payouts.ExpensesMap | backend/routes/payouts.py:92-94 | The dictionary comprehension of expense sums. `ExpensesMapTotals` proves that it keys exactly the partner names and holds each partner's week sum. |
| Payouts.DecimalMap | backend/routes/payouts.py:44-45 | `_decimal_map` keeps exactly the keys it is given. |
| Payouts.DecimalMapReadsBack | backend/routes/payouts.py:44-45 | Each text it writes reads back as the amount it was written from. |
| Payouts.WeekReimbursesWeekExpenses | backend/routes/payouts.py:92-103 | Closing a week reimburses each partner exactly their expenses dated within that week. The income total is the two incomes and the rent fee is the request's. |
| Payouts.ExpenseOutsideWeekIgnored | backend/routes/payouts.py:33-41 | Recording an expense dated outside the week leaves the week's settlement unchanged. |
| Payouts.SameTotalsSameSettlement | backend/routes/payouts.py:92-103 | Expense rows with the same per-partner week totals give the same settlement. |
| Payouts.StoredRowReadsBack | backend/routes/payouts.py:48-65 | A stored object holding the breakdown texts and the two ISO dates reads back as the response of that breakdown. |
| Payouts.SettlementToSchema | backend/routes/payouts.py:48-65 | Reads the nine amounts and the two ISO dates back from the stored object. `StoredRowReadsBack` and `DatesReadBack` prove that what close week stores reads back as its response. `MissingFieldUnreadable` proves that a missing amount makes the read fail. |
| Payouts.ResponseOf | backend/routes/payouts.py:145-160 | The response built from the breakdown and the week's two days. `Session.CloseWeek` ties it to the week's settlement, and `StoredRowReadsBack` ties it to the stored row. |
| Payouts.DatesReadBack | backend/routes/payouts.py:63-64 | The stored week start and week end read back as the days they were written from. |
| Payouts.MissingFieldUnreadable | backend/routes/payouts.py:54-62 | A stored object that lacks one of the response's amounts cannot be read back. |
| Payouts.ClosedWeekStored | backend/routes/payouts.py:105-143 | The rows close week stores read back as exactly its answer and form a well-formed closed week. |
| Payouts.WeekFiled | backend/routes/payouts.py:118-143 | Filing an admitted week keeps every stored week well formed. |
| Payouts.StoredWeeksExtend | backend/models.py:39 | Adding a well-formed closed week under its own Wednesday keeps the store well formed. |
| Payouts.Session.CloseWeek | backend/routes/payouts.py:68-160 | The guards run in the source's order, each with its status and message: rule, not a Wednesday, week start before year 1, already closed, fewer than two partners, Rafael or Guilherme missing. The call succeeds exactly when every guard passes. On failure nothing is stored. On success the store gains exactly this week's payout and settlement rows, the answer is the settlement of the week's expenses and incomes, and the stored rows read back as the answer. Partners and expenses are unchanged. |
| Payouts.Session.FileWeek | backend/routes/payouts.py:92-160 | The success path stores exactly the week's rows and answers with the breakdown of the week's totals. |
| Payouts.Session.ReadSettlement | backend/routes/payouts.py:186-202 | A settlement is found exactly when its week was closed, and it reads back with that week's start and end. |
| Payouts.ValidateResponse | backend/schemas.py:11 | The response schema as written accepts a response exactly when all nine amounts satisfy `Money` (not negative, at most ten whole digits), and it returns that response unchanged. Otherwise it fails with a server error. |
| Payouts.ResponseAsWritten | backend/schemas.py:11 | Building the response as written succeeds exactly when all nine amounts satisfy `Money`: not negative, at most ten whole digits. |
| Payouts.Session.CloseWeekAsWritten | backend/routes/payouts.py:126-160 | `close_week` as written. A refused request stores nothing. An admitted week stores exactly the same rows as the corrected close and reads back as the signed response. The answer is that response validated as `Money`, so a negative week is stored and still answered with a server error. A week already on file is refused as already closed. |
| Payouts.Session.ReadSettlementAsWritten | backend/routes/payouts.py:186-202 | `get_settlement` as written. An unknown week is "Settlement not found" (404). A stored week is its read-back response validated as `Money`. |
| Payouts.Session.RefusedWeekStaysClosed | backend/routes/payouts.py:77-79 | For an admitted week whose response the schema refuses: the first close answers a server error but leaves the week stored, a retry is refused as already closed, and reading the week back answers a server error. |
| Payouts.NegativeWeekRefusedAsWritten | backend/schemas.py:58-76 | The engine's own negative test case is refused as written, while the signed response reports -450.00 and -25.00. |
| Db.FindFrom | backend/db.py:15 | `find` returns the first occurrence at or after the start, or none when there is no occurrence. |
| Db.ReplaceAtStart | backend/db.py:14-17 | When the pattern is a prefix, replacing its first occurrence swaps exactly the prefix. |
| Db.FormatDatabaseUrl | backend/db.py:11-18 | `postgres://` and `postgresql://` become `postgresql+psycopg://` with the rest kept. Any other URL is returned unchanged. |
| Db.PostgresRewritten | backend/db.py:14-15 | `postgres://rest` becomes `postgresql+psycopg://rest`. |
| Db.PostgresqlRewritten | backend/db.py:16-17 | `postgresql://rest` becomes `postgresql+psycopg://rest`. |
| Db.PsycopgUnchanged | backend/db.py:16-18 | A URL that already names psycopg is left alone. |
| Db.FormatIdempotent | backend/db.py:11-18 | Formatting a formatted URL changes nothing. |
| Db.FormatChangesOnlyPostgres | backend/db.py:11-18 | The URL changes exactly when it starts with `postgres://` or `postgresql://`. |
| Settings.Strip | backend/settings.py:49 | What `strip()` returns neither starts nor ends with whitespace. |
| Settings.StripSpec | backend/settings.py:49-50 | `strip()` returns a slice of its input with only whitespace around it, and it is empty exactly when the input is all whitespace. |
| Settings.SplitOn | backend/settings.py:54 | `split(",")` returns at least one piece, none of which holds a comma, and joining the pieces with commas gives the input back. |
| Settings.SplitJoin | backend/settings.py:54 | Splitting comma-joined pieces that hold no comma gives the pieces back. |
| Settings.CleanPieces | backend/settings.py:54 | The kept pieces are non-empty and stripped, and there are no more of them than there were pieces. |
| Settings.CleanPiecesOne | backend/settings.py:54 | A single piece contributes its stripped text, or nothing when it strips to nothing. |
| Settings.CleanPiecesConcat | backend/settings.py:54 | Cleaning works piece by piece: cleaning two lists joined end to end gives their cleaned lists joined in the same order. With `CleanPiecesOne` this fixes the result for every list. |
| Settings.CleanPiecesKeepsClean | backend/settings.py:54 | Pieces that are already non-empty and stripped are kept as they are, in order. |
| Settings.ResolvedCorsOrigins | backend/settings.py:44-54 | A non-empty configured list is returned as it is. Otherwise every origin returned is non-empty, stripped and free of commas. |
| Settings.ResolvedFromPieces | backend/settings.py:49-54 | Without a configured list, and unless the stripped text is `*`, the origins are the comma pieces of the stripped `allowed_origins`, each stripped, empty ones dropped, in order. A blank setting falls under this too. |
| Settings.PaddedListExample | backend/settings.py:49-54 | `allowed_origins = " a , b "` resolves to `["a", "b"]`. |
| Settings.BlankAllowsNone | backend/settings.py:49-51 | Without a list, a blank `allowed_origins` allows no origin. |
| Settings.StarAllowsAll | backend/settings.py:52-53 | Without a list, `*` (whitespace aside) allows every origin. |
| Settings.OriginsComeFromPieces | backend/settings.py:54 | Every origin resolved from the comma list is the stripped form of one of its pieces. |
| Settings.AllowedOriginsRoundTrip | backend/settings.py:49-54 | Origins written as a comma-separated `allowed_origins` are read back as the same list in the same order, when each is non-empty, stripped and comma-free. |
| Settings.RStripSlash | backend/settings.py:62 | `rstrip("/")` returns a prefix that does not end in `/`, and only slashes were dropped. |
| Settings.SupabaseConfigOf | backend/settings.py:56-66 | None exactly when the URL or the service-role key is missing or empty. Otherwise the key is kept and the bucket is the configured one, or "receipts" when that is empty. A missing anonymous key becomes "". The URL is `RStripSlash` of the configured URL: a prefix of it without trailing slashes. |
| Settings.TrailingSlashesIgnored | backend/settings.py:62 | Extra trailing slashes on the URL do not change the configuration. |
| WeekPicker.DayOfWeekAgrees | frontend/src/components/WeekPicker.tsx:9 | dayjs's Sunday-first weekday is Python's plus one, modulo 7, and both name the same Wednesday. |
| WeekPicker.EnsureWednesday | frontend/src/components/WeekPicker.tsx:11-14 | The result is a Wednesday in the same Sunday-to-Saturday week, at most three days away. |
| WeekPicker.EnsureWednesdayDirection | frontend/src/components/WeekPicker.tsx:11-14 | Sunday to Tuesday move forward, Thursday to Saturday move back, and a day stays exactly when it is a Wednesday. |
| WeekPicker.EnsureWednesdayUnique | frontend/src/components/WeekPicker.tsx:11-14 | It is the only Wednesday of that week. |
| WeekPicker.EnsureWednesdayIdempotent | frontend/src/components/WeekPicker.tsx:11-14 | Snapping twice is the same as snapping once. |
| WeekPicker.PickerVersusCurrentWednesday | frontend/src/components/WeekPicker.tsx:11-14 | From Sunday to Tuesday the picker's Wednesday is seven days after the backend's current Wednesday. On other days the two are the same. |
| WeekPicker.FormatReadsBack | frontend/src/components/WeekPicker.tsx:16-18 | What `format` writes reads back as the snapped Wednesday. |
| WeekPicker.Format | frontend/src/components/WeekPicker.tsx:16-18 | `format` writes ten characters. `FormatReadsBack` proves that they read back as the Wednesday of the day's week. |
| WeekPicker.Current | frontend/src/components/WeekPicker.tsx:21 | There is a current date exactly when the value parses. It is a Wednesday in the same Sunday-to-Saturday week as the parsed day. |
| WeekPicker.CurrentIsSnapped | frontend/src/components/WeekPicker.tsx:21 | The current date is exactly the parsed day snapped by `EnsureWednesday`. |
| WeekPicker.EmittedIsWednesday | frontend/src/components/WeekPicker.tsx:16-18 | Whatever the picker emits as a date is the text of a Wednesday. |
| WeekPicker.InputChangeSnaps | frontend/src/components/WeekPicker.tsx:31-34 | A chosen day is emitted as the text of its week's Wednesday, and a cleared input stands for today. Text that is not a date is emitted as "Invalid Date". |
| WeekPicker.HandleInputChange | frontend/src/components/WeekPicker.tsx:31-34 | Non-empty text that is not a date emits "Invalid Date". `InputChangeSnaps` proves that a date is emitted as its week's Wednesday and that a cleared input stands for today. |
| WeekPicker.StepsAreOneWeek | frontend/src/components/WeekPicker.tsx:23-29 | Previous and next emit the current Wednesday minus and plus seven days. |
| WeekPicker.GoPrevious | frontend/src/components/WeekPicker.tsx:23-25 | An unparsable value emits "Invalid Date". For a parsed value, `StepsAreOneWeek` proves that it emits the current Wednesday minus seven days. |
| WeekPicker.GoNext | frontend/src/components/WeekPicker.tsx:27-29 | An unparsable value emits "Invalid Date". For a parsed value, `StepsAreOneWeek` proves that it emits the current Wednesday plus seven days, and `NextThenPrevious` proves that previous undoes it. |
| WeekPicker.NextThenPrevious | frontend/src/components/WeekPicker.tsx:23-29 | Going forward and then back returns to the Wednesday shown. |
| WeekPicker.ShownWednesday | frontend/src/components/WeekPicker.tsx:21 | When the picker shows a Wednesday's text, that Wednesday is the current one. |

## Left out

- Floats as arguments to `compute_settlement` are not modelled. `str(float)` depends
  on binary floating point. Decimals, ints and text are modelled.
- `Decimal(text)` accepts plain decimal notation only: an optional sign, digits and one
  point. Exponents, `NaN`, `Infinity`, underscores and surrounding whitespace are not modelled.
- `date.fromisoformat` is modelled for `YYYY-MM-DD` only. The other ISO 8601 forms that
  Python 3.11 accepts are not.
- Timezones are modelled by two offset functions. The tz database, pytz's choice among
  ambiguous or skipped wall-clock times, and `datetime.utcnow()` are not modelled:
  `now` is a parameter.
- Scheduler.NextWednesdayAt: where a daylight-saving change skips the wall-clock
  time, only "strictly after now" is proved. The exact local reading needs the
  wall-clock time to exist.
- `remind_week_close` only logs and returns a message, so it is not modelled. The
  decisions it makes are `IsWithinReminderWindow`, `NextWednesdayAt` and `CurrentWednesday`.
- Payouts: the database engine and ORM, transactions, row ids, `created_at` timestamps,
  HTTP status plumbing and admin authentication are not modelled.
  - Payouts are keyed by their week end, which the unique constraint makes a key.
- Payouts.Session.ReadSettlement: it models the corrected read, with signed amounts. As written, a
  stored week with a negative amount is answered with a server error; that is
  `ReadSettlementAsWritten` (see Findings).
- Payouts.StoredRowReadsBack: it models the corrected schema, so any signed breakdown reads
  back. As written, a negative amount makes the read fail (`ReadSettlementAsWritten`).
- Payouts.ClosedWeekStored: the stored rows read back under the corrected schema. As
  written, a negative week's rows are stored but cannot be read back.
- Payouts.WeekFiled: "well formed" is the corrected schema's read-back. As written, a
  negative week is filed but its read fails `Money` validation.
- Payouts.Session.ReadSettlement (lookup): `get_settlement` looks a settlement up by row id.
  The model looks it up by week end because ids are not modelled, so the id guard
  (`gt=0`) and the "Payout not found" case are not modelled.
- The JSON text of `breakdown_json` is modelled as the object it encodes. `json.dumps`
  and `json.loads` are taken to round-trip.
- The overflow of a `Numeric(12, 2)` column is not modelled. The upper bound of `Money`
  appears only in `MoneyAccepts`.
- Settlement.ComputeSettlement: Decimal's 28-digit context is not modelled. The source
  rounds products to 28 significant digits before quantising, and `quantize` raises
  InvalidOperation for results of 10^26 or more. The model is exact and never overflows.
- Decimals.CentsText: Decimal keeps a negative zero, so a share of -0.004 is written
  "-0.00" by the source. The model's whole hundredths write "0.00".
- Decimals.IntTextRoundTrip: Python 3.11 refuses `str(n)` for integers beyond 4300
  digits. The model has no such limit.
- Partner split ratios are read as exact reals. Their `Numeric(5, 4)` limits are not modelled.
- Db: the engine and session factory built from the URL are not modelled. The
  `postgresql+psycopg://` guard at backend/db.py:16 can never change the result,
  because a URL that starts with `postgresql://` cannot also start with
  `postgresql+psycopg://` (`FormatChangesOnlyPostgres`).
- Settings: loading from the environment and `.env`, `lru_cache`, and the `AnyHttpUrl`
  validation and normalisation are not modelled. A configured origin or Supabase URL
  is its text as given (`str()` of the validated URL).
- WeekPicker:
  - dayjs's lenient parsing of other date formats is not modelled.
  - WeekPicker.Parse: dayjs builds `new Date(y, m - 1, d)`, so an overflowing day
    such as "2024-02-30" rolls over to 2024-03-01, and years 0000 to 0099 are read as
    1900 to 1999. The model reads only calendar-valid dates of years 0001 to 9999 and
    gives None ("Invalid Date") for the rest.
  - Dates outside years 0001 to 9999 are not modelled: `Emit` returns None for them.
  - React rendering, the `onChange` callback and the clock behind `dayjs()` are not
    modelled: today's date is a parameter.
- In `next_wednesday_at`, a target equal to `now` is pushed a week on (`<=` at
  backend/services/scheduler.py:40).

## Findings

| source | as written | input that shows it | evidently intended | confidence | as-written member | corrected member |
|---|---|---|---|---|---|---|
| backend/schemas.py:11 | `SettlementResponse` types every amount as `Money` (`ge=0`). `close_week` commits both rows (payouts.py:141) before it builds the response (payouts.py:145). So a week whose pot or total is negative is stored and then answered with a validation error (HTTP 500). A retry is refused as "Week already closed" (payouts.py:79), and `get_settlement` of that week also answers 500. | expenses Rafael 800 and Guilherme 200, iFood 500 and 99 at 100: the pot is -450.00 and Guilherme's total is -25.00, as the settlement's own test expects | the signed breakdown is returned on close and on read, as the engine's test treats negative pots as valid | not executed | Payouts.ResponseAsWritten, Payouts.NegativeWeekRefusedAsWritten, Payouts.Session.CloseWeekAsWritten, Payouts.Session.ReadSettlementAsWritten, Payouts.Session.RefusedWeekStaysClosed | Payouts.Session.CloseWeek, Payouts.Session.ReadSettlement, Payouts.ResponseOf |
