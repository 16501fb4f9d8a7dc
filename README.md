# AutoCare domain model in Dafny

AutoCare is a console application for a car-repair shop. It keeps customers,
their vehicles and the services done on those vehicles in a SQL database
(PostgreSQL or MySQL). It also prices services with a fixed tax rate, lists
services that are coming due, and builds invoices, billing summaries and
service-history reports.

This project models the application's domain layer:

- the customer, vehicle and service managers, with their validation rules,
  the order of their checks and their messages;
- billing and reports;
- the database in their place, held in memory.

The database is the `Database.Store` class. It holds three `map` tables and
the auto-increment counters. Its methods are the SQL statements the managers
issue. The engine's constraints are modelled explicitly:

- the two foreign keys, with `ON DELETE CASCADE`;
- the `UNIQUE` licence plate.

The queries (searches, histories, reminders, invoices, billing summaries) are
functions over a `Database.Tables` snapshot. They return the rows the SQL
would return: joined, filtered, counted and ordered.

Modules:

- `Wrappers`: `Option`.
- `Config`: the tax rate, the service interval and the reminder window.
- `Text`: whitespace and `strip`, substring search, decimal digits, `int()`
  and `str()`, and the `:.2f` money format.
- `Calendar`: proleptic Gregorian dates, day ordinals, `timedelta` addition,
  and `strptime('%Y-%m-%d')` and `strftime('%Y-%m-%d')`.
- `Sorting`: a stable insertion sort by key, the ascending order of a key set,
  and sums over sequences.
- `DomainRules`: the validators `validate_phone`, `validate_email`,
  `validate_year`, `validate_license_plate`, `validate_date` and
  `validate_cost`, the tax formula and `calculate_next_service_date`.
- `Database`: rows, the schema constraints, the row rules the managers keep,
  the cascading deletes and the `Store` class.
- `Joins`: the services ⋈ vehicles ⋈ customers join and the `ORDER BY`s.
- `CustomerManager`, `VehicleManager`, `ServiceManager`, `Billing` and
  `Reports`: the five modules of the application.
- `PyNumbers`: Python's `float` and `Decimal`, which refuse to mix in
  arithmetic. It is used only to exhibit the two findings below.

Every state-changing manager operation keeps two invariants:

- `Store.Valid()`: the constraints hold, and every key was issued by its
  counter.
- `WellFormed`: every row obeys the rules that its add and update operations
  enforce.

Each operation's contract states:

- the message of every failing check, in the source's order;
- that a failure leaves the store unchanged;
- the whole new state on success.

Costs are `real`. A `DECIMAL(10,2)` column is assumed to store the value it is
given exactly (see "Left out").

## Model

| member | source | states |
|---|---|---|
| Text.BlankIffStripsToEmpty | customer_manager.py:17-21 | a string is blank, i.e. `not s.strip()`, exactly when stripping the whitespace leaves nothing |
| Text.NatToStringRoundTrip | customer_manager.py:58 | the decimal text of an id, as shown in the "(ID: n)" messages, reads back as that id |
| Text.ParseIntRoundTrip | vehicle_manager.py:5-10 | `int(str(y)) == y` for every integer, negative ones included |
| Text.Cents | service_manager.py:77 | the cents a `:.2f` rendering shows are the amount times 100, rounded to the nearest cent |
| Text.TwoDecimalsReadsBack | service_manager.py:77 | the `:.2f` text of a total has a point, two fraction digits and a digit run before them; read back, the digits give the rounded cents |
| Calendar.AddDaysOrdinal | service_manager.py:20-26 | adding n days moves a date's day ordinal by exactly n and keeps it a calendar date |
| Calendar.AddDaysChecked | service_manager.py:23 | `date + timedelta(days=n)` gives a date exactly when the result is not after 9999-12-31; the result is valid and n days later |
| Calendar.OrdinalOrder | service_manager.py:277-278 | a date precedes another exactly when its ordinal is smaller, and two dates are equal exactly when their ordinals are |
| Calendar.DateKeyOrder | service_manager.py:255-256 | comparing the sort keys of two dates is comparing the dates themselves, as SQL compares DATE values |
| Calendar.ParseDate | service_manager.py:6-11 | whatever `strptime('%Y-%m-%d')` accepts is a valid date of years 1 to 9999 |
| Calendar.FormatParseRoundTrip | service_manager.py:20-26 | `strptime(strftime(d))` is `d` for every valid date |
| Calendar.ParseIsoDate | service_manager.py:6-11 | a text of the form YYYY-MM-DD parses to the date its fields name when that date exists, and is refused otherwise |
| Calendar.FormatIsIso | service_manager.py:24 | `strftime('%Y-%m-%d')` always writes the ten-character YYYY-MM-DD form |
| Calendar.ParserAcceptsNonIsoForms | service_manager.py:6-11 | the parser also accepts unpadded months and days, as `strptime` does ("2024-1-5", "2024-01- 5") |
| Calendar.ParserRejectsImpossibleDates | service_manager.py:6-11 | a well-shaped text naming a day the calendar lacks is refused ("2023-02-29", "0000-01-01", "2024-13-01"), while "2024-02-29" is accepted |
| Sorting.SortedIds | vehicle_manager.py:184 | the ascending order of a key set: strictly increasing, holding exactly the set's keys, one per key |
| Sorting.SortIsSorted | reports.py:18 | the stable insertion sort orders any sequence by its key |
| Sorting.SortByKey | reports.py:18 | the sort returns a permutation of its input: same length, same multiset |
| Sorting.SumBySorted | billing.py:153 | a sum over records does not depend on their order |
| DomainRules.HasTextIffStripNonEmpty | vehicle_manager.py:12-13 | `len(s.strip()) > 0` is the same test as "not blank" |
| DomainRules.PhoneMatchesPattern | customer_manager.py:6-8 | `validate_phone` holds exactly when the text is an optional `+` followed by one or more digits, spaces, `-`, `(` or `)` |
| DomainRules.PhoneExamples | customer_manager.py:6-8 | "()" and "+1 (555) 010-9999" pass; "", "+" and "555-CALL" fail; "   " passes the pattern although `add_customer` refuses it as blank |
| DomainRules.EmailMatchesPattern | customer_manager.py:10-14 | `validate_email` holds exactly for the empty text, or for local@domain.tld with the character classes of the pattern and a top-level part of at least two letters, optionally followed by one final newline (`$`) |
| DomainRules.EmailExamples | customer_manager.py:10-14 | the empty address passes, and so does an address followed by one newline |
| DomainRules.EmailExampleLong | customer_manager.py:10-14 | an ordinary address using `+`, `.` and `-` passes |
| DomainRules.EmailRejections | customer_manager.py:10-14 | a one-letter top-level domain, an empty local part and a second `@` are refused |
| DomainRules.YearRangeExact | vehicle_manager.py:5-10 | the decimal text of an integer passes `validate_year` exactly when it lies in 1900..2030 |
| DomainRules.ValidateLicensePlate | vehicle_manager.py:12-13 | a plate passes exactly when stripping it leaves something |
| DomainRules.ValidateDateAcceptsIso | service_manager.py:6-11 | `validate_date` accepts the YYYY-MM-DD text of every valid date |
| DomainRules.CostValidationCases | service_manager.py:13-18 | `validate_cost`: an input `float()` refuses is invalid, because the bare `except` turns every failure of `float()` into False (TypeError on None included); a number is valid exactly when it is not negative. `Numeric` stands for the outcome of `float()` on the input |
| DomainRules.TotalWithTax | service_manager.py:53-57 | the stored total is (labour + parts) × (1 + TAX_RATE) |
| DomainRules.NextServiceDate | service_manager.py:20-26 | the next service date is 90 days on, or none when that passes 9999-12-31 |
| DomainRules.CalculateNextServiceDate | service_manager.py:20-26 | a date text gives a next date exactly when it parses and the date 90 days on exists; the result is the `YYYY-MM-DD` text of the date 90 days after the given one, in ISO extended form, and parses back to that date |
| DomainRules.NextServiceExample | service_manager.py:20-26 | "2024-01-15" gives "2024-04-14" (across the leap day) |
| DomainRules.NextServiceNone | service_manager.py:20-26 | "9999-12-01" gives None: the addition overflows and the exception is swallowed |
| DomainRules.NextServiceOfNonDate | service_manager.py:20-26 | "2024-02-30", which names no date, gives None |
| Database.DeleteCustomerRemovesDependents | database.py:116-131 | deleting a customer removes exactly it, its vehicles and their services, leaves every other row as it was, and keeps the constraints and row rules |
| Database.DeleteVehicleRemovesServices | database.py:131 | deleting a vehicle removes exactly it and its services; customers are untouched; the constraints and row rules still hold |
| Database.NoOrphansAfterCustomerDelete | database.py:116-131 | after a customer is deleted, no service still leads back to it and no service is left without its vehicle |
| Database.Store.constructor | database.py:95-132 | `init_database`: three empty tables whose keys start at 1 |
| Database.Store.InsertCustomer | database.py:96-103 | the row gets the next auto-increment key, a fresh key, and nothing else changes |
| Database.Store.UpdateCustomer | customer_manager.py:109 | only that customer's row changes |
| Database.Store.DeleteCustomer | database.py:116-131 | the new tables are the cascade of the old ones; the constraints still hold |
| Database.Store.InsertVehicle | database.py:107-117 | with the owner present and the plate unused, the row gets a fresh key, and the constraints still hold |
| Database.Store.UpdateVehicle | database.py:113 | the update goes through exactly when no other vehicle has the new plate; otherwise nothing changes |
| Database.Store.DeleteVehicle | database.py:131 | the new tables are the cascade of the old ones |
| Database.Store.InsertService | database.py:121-132 | the row gets the next key; only the services table changes |
| Database.Store.UpdateService | service_manager.py:147 | only that service's row changes |
| Database.Store.DeleteService | service_manager.py:170 | exactly that row goes |
| Joins.Ordered | reports.py:11-18 | an ordered query returns exactly the joined rows of its services, each once, each with its own vehicle and owner, sorted on the `ORDER BY` key |
| Joins.PermutedRecords | reports.py:11-18 | any reordering of the joined rows holds exactly the rows of the given ids |
| Joins.NewestFirstOrder | reports.py:18 | rows sorted on the descending-date key run from the latest service date to the earliest |
| CustomerManager.AddCustomer | customer_manager.py:16-58 | checks in order (name, phone, phone format, email, duplicate phone), each with its message; success exactly when all pass; on success exactly one new row under a fresh key, and "(ID: n)" names it; on failure nothing changes; `Valid` and `WellFormed` are kept |
| CustomerManager.CollectUpdates | customer_manager.py:82-102 | blank name and phone are skipped, email and address are written whenever given; the first invalid phone or email stops it with its message; the number of columns set and the row produced |
| CustomerManager.UpdateKeepsRowRules | customer_manager.py:82-102 | an update that passes the checks keeps a customer row valid |
| CustomerManager.UpdateCustomer | customer_manager.py:66-114 | id required, customer exists, phone, email, some field given: each failure with its message and no change; success writes exactly the updated row |
| CustomerManager.DeleteCustomer | customer_manager.py:119-135 | id required, customer exists; success leaves the cascade of the old tables |
| CustomerManager.SearchCustomers | customer_manager.py:140-165 | an id takes precedence over a term; a term matches name, phone or email by substring; with neither, every customer; "Found n customer(s)"; rows are the stored ones, each once |
| CustomerManager.SearchFindsAddedCustomer | customer_manager.py:140-165 | a customer just added is found by searching for its phone number |
| VehicleManager.AddVehicle | vehicle_manager.py:15-61 | checks in order (customer id, make, model, year, plate, owner exists, plate unused), each with its message; success exactly when all pass; on success one new row with the year as parsed; on failure nothing changes |
| VehicleManager.TextUpdates | vehicle_manager.py:81-87 | a make or model is written only when it has non-blank text; the number of columns set and the row produced |
| VehicleManager.CollectUpdates | vehicle_manager.py:82-106 | blank make and model are skipped; a given year and plate are validated in that order; the number of columns set and the row produced |
| VehicleManager.UpdateKeepsRowRules | vehicle_manager.py:82-106 | an update that passes the checks keeps a vehicle row valid |
| VehicleManager.WriteVehicle | vehicle_manager.py:112-121 | the UPDATE succeeds exactly when no other vehicle holds the plate, writing only that row and keeping the row rules; otherwise "Failed to update vehicle" and nothing changes |
| VehicleManager.UpdateVehicle | vehicle_manager.py:66-121 | id required, vehicle exists, year, plate, some field given; then the UNIQUE plate decides between "Vehicle updated successfully", with exactly the updated row, and "Failed to update vehicle", with nothing changed |
| VehicleManager.DeleteVehicle | vehicle_manager.py:123-139 | id required, vehicle exists; success leaves the cascade of the old tables |
| VehicleManager.SearchVehicles | vehicle_manager.py:144-191 | vehicle id, then customer id, then term (make, model or plate), else all; only vehicles whose owner joins; each row carries the owner's name; "Found n vehicle(s)" |
| VehicleManager.SearchAllListsEveryVehicle | vehicle_manager.py:144-191 | under the foreign key, the unfiltered search lists every vehicle once |
| ServiceManager.AddService | service_manager.py:28-77 | checks in order (vehicle id, date, description, labour, parts, vehicle exists), each with its message; success exactly when all pass; on success one new row with the taxed total and the next service date, and the message shows the id, the total to two decimals and the next date; on failure nothing changes |
| ServiceManager.CollectUpdates | service_manager.py:99-140 | a given date brings its next date; a blank description is skipped; date, then labour, then parts are validated, each with its message; the number of columns set and the row produced |
| ServiceManager.UpdateKeepsRowRules | service_manager.py:99-140 | an update that passes the checks keeps a service row valid: the total is recomputed whenever a cost is supplied, and the next date follows the date |
| ServiceManager.WriteService | service_manager.py:146-150 | the UPDATE writes only that service's row, and the tables keep the row rules |
| ServiceManager.UpdateService | service_manager.py:82-152 | id required, service exists, date, labour, parts, some field given; each failure with its message and no change; success writes exactly the updated row |
| ServiceManager.DeleteService | service_manager.py:157-173 | id required, service exists; success removes exactly that row |
| ServiceManager.SearchServices | service_manager.py:178-215 | a service id takes precedence over a vehicle id, else all; only joinable services; newest service date first; "Found n service(s)" |
| ServiceManager.SearchAllListsEveryService | service_manager.py:178-215 | under the foreign keys, the unfiltered search lists every service once |
| ServiceManager.ReminderHorizon | service_manager.py:247 | the horizon is a valid date exactly REMINDER_DAYS after today |
| ServiceManager.ServiceReminders | service_manager.py:241-264 | exactly the joinable services whose next date lies between today and the horizon, soonest first; "Found n reminder(s)" |
| ServiceManager.RemindersByDaysLeft | service_manager.py:241-278 | on well-formed tables, a service is reminded exactly when it has a next date whose days-left count is between 0 and 7 |
| ServiceManager.RecomputedTotalAsWritten | service_manager.py:135-138 | (as written) the recomputed total mixes a float cost with a Decimal one |
| ServiceManager.OneSuppliedCostRaises | service_manager.py:99-138 | as written, supplying exactly one cost raises instead of storing a total; supplying both gives the total `UpdatedService` stores |
| Billing.CalculateBill | billing.py:102-125 | a non-numeric cost gives "Invalid cost values" before the sign check; then "Costs cannot be negative"; otherwise subtotal, tax at TAX_RATE, total, and the rate as a percentage |
| Billing.BillAgreesWithStoredTotal | billing.py:102-125 | the calculator accepts exactly the costs `add_service` accepts, and its total is the total `add_service` stores |
| Billing.BillExample | billing.py:102-125 | 50 of labour and 30 of parts make subtotal 80, tax 6.40 and total 86.40 |
| Billing.GenerateInvoice | billing.py:6-33 | an invoice exists exactly when the service joins its vehicle and owner, else "Service not found"; its charges are the stored costs, a recomputed subtotal and tax, and the stored total |
| Billing.InvoiceAddsUp | billing.py:52-53 | on well-formed tables an invoice's total is its subtotal plus its tax, and these are the figures the bill calculator gives for the same costs |
| Billing.InvoiceTaxAlwaysRaises | billing.py:52-53 | as written, the tax line raises for every stored service |
| Billing.CustomerBillingSummary | billing.py:144-171 | "Customer not found" exactly when the customer is absent; otherwise its name and phone, the count of its services, and their summed totals, which are NULL exactly when the count is 0 |
| Billing.ShownSpentIsSum | billing.py:185-186 | the amount shown is the sum of the customer's service totals, 0 when it has none |
| Reports.ServiceHistoryByCustomer | reports.py:5-28 | exactly the joined services on the customer's vehicles, newest first; "Found n service record(s)" |
| Reports.ServiceHistoryByVehicle | reports.py:30-53 | exactly the joined services of the vehicle, newest first |
| Reports.AllServicesReport | reports.py:144-166 | every joinable service, newest first |
| Reports.AllServicesReportIsComplete | reports.py:144-166 | under the foreign keys, the report holds every service exactly once |
| Reports.VehicleHistoryWithinOwnerHistory | reports.py:5-53 | a vehicle's history is part of its owner's history |
| Reports.SummaryAgreesWithHistory | billing.py:144-171 | the billing summary's count is the length of the customer's history, and its amount is the sum of that history's totals |
| Reports.TotalsAddUp | reports.py:72-87 | when each record's total was computed from its costs, the summed total is the taxed sum of the summed costs |
| Reports.ReportTotalsAddUp | reports.py:72-87 | on well-formed tables, a customer history's TOTALS line adds up |
| Reports.VehicleReportTotalsAddUp | reports.py:72-87 | on well-formed tables, a vehicle history's TOTALS line adds up |
| Reports.AllReportTotalsAddUp | reports.py:72-87 | on well-formed tables, the TOTALS line of the report of all services adds up |
| Reports.SumRecords | reports.py:72-87 | the loop's running sums end as the sums of labour, parts and total over all records |
| Reports.DisplayServiceHistory | reports.py:55-91 | nothing is shown exactly when the history is empty; otherwise the TOTALS line's three sums |
| Reports.ExportServiceHistory | reports.py:94-140 | an empty history gives "No data to export"; otherwise the SUMMARY has the three sums and the record count, and the message names the given file, or `service_history_<timestamp>.txt` when none or an empty name is given |

## Left out

- Printing, `PrettyTable` tables, prompts and the menus of `main.py` are not
  modelled. This covers `display_customers`, `display_vehicles`,
  `display_services`, `display_reminders`, `display_bill`,
  `display_billing_summary` and the invoice text layout.
- `display_all_services_report` is not modelled. Its loop is the same
  summation as `display_service_history`, which `Reports.SumRecords` models.
- Database connection failures are not modelled. Neither are the "Failed to
  fetch …", "Failed to add …" and "Failed to delete …" branches for a
  statement the engine rejects: after the prechecks those statements cannot
  fail in the model.
- The `Store` does not model `commit`, `rollback`, transactions or concurrent
  clients. The check-then-insert races between two clients are out of scope.
- `created_at` columns, `.env` loading and the choice between the two drivers
  are not modelled. Their placeholders and `RETURNING` clauses are not
  modelled either.
- `DECIMAL(10,2)` rounding and range, `VARCHAR` lengths, and binary
  floating-point rounding are not modelled. Neither are NaN and infinity from
  `float()`. Costs are exact reals.
- `Text.TwoDecimals` rounds the exact real half up. It does not model the
  rounding of the binary float that Python formats.
- `Numeric` stands for the outcome of `float(x)`: a number, or a value
  `float()` refuses. The text forms `float()` accepts are not modelled.
- `Calendar.ParseDate` covers ASCII decimal digits only. Python's `int()`
  and `strptime` also accept other Unicode digits, and `int()` accepts
  underscores between digits.
- DomainRules.ValidatePhone: `\d` in the phone pattern matches ASCII digits
  only. Python's `\d` on a str pattern matches every Unicode decimal digit,
  so a phone number written in, say, Arabic-Indic digits passes the source's
  check but not the model's.
- `Text.ParseInt` is strict: optional surrounding whitespace, an optional
  sign, then digits.
- `Calendar.FormatDate` writes years below 1000 as four zero-padded digits
  ("0999-04-01"), as CPython 3.12.5 and later do. Older CPython on glibc
  writes "999-04-01", which `strptime('%Y')` then refuses. That older
  behaviour is not modelled.
- `ILIKE` and `LIKE` are modelled as plain substring tests. Case
  insensitivity (PostgreSQL) or collation (MySQL) and the `%`/`_` wildcards
  inside a search term are not modelled. The same holds for `=` and the
  UNIQUE key: under MySQL's default collation "abc123" and "ABC123 " are the
  same plate (and the same phone for `PhoneInUse`). `Database.PlatesUnique`,
  `Database.PlateHeldByOther` and `Database.PhoneInUse` compare exact strings.
- `CustomerManager.SearchCustomers` and `VehicleManager.SearchVehicles` always
  return ascending id order. The source orders only some of its queries and
  leaves the rest to the engine.
- The order among services with equal dates is left to the engine in the
  source. The model puts them in ascending id order by construction:
  `Joins.Ordered` sorts the rows stably, starting from ascending ids. No
  contract states this tie order.
- `ServiceManager.ServiceReminders`: `today` is a parameter, in place of the
  clock. It requires `today` plus 7 days to be a date, because otherwise
  `timedelta` raises OverflowError.
- `Reports.ExportServiceHistory`: the file is not written, so a write failure
  ("Failed to export report") is not modelled. The timestamp is a parameter,
  and the "Generated:" line is not modelled.
- `Billing.CalculateBill`: a `None` input, which raises TypeError out of
  `float()` rather than being caught as ValueError, is treated as a
  non-numeric value.
- `ValidateDate` is `strptime` with `%Y-%m-%d`. It accepts unpadded months and
  days, so a service may be recorded from "2024-1-5". The date is stored as
  the parsed date. The source passes the text to the engine, which is
  expected to accept that form; the engines' date-input rules are not
  modelled.
- `CustomerManager.UpdateCustomer`: phone uniqueness is checked only by
  `add_customer`. `update_customer` does not check it, and neither does the
  model: the schema has no such constraint.

## Findings

| source | as written | input that shows it | evidently intended | confidence | as-written member | corrected member |
|---|---|---|---|---|---|---|
| billing.py:52-53 | `subtotal * config.TAX_RATE` multiplies the Decimal subtotal that both drivers return for `DECIMAL` columns by the float `TAX_RATE`, which raises TypeError, so `generate_invoice` never produces an invoice for a stored service | any stored service, e.g. labour 50.00 and parts 30.00 | tax = subtotal × TAX_RATE, and the invoice shows subtotal, tax and the stored total | medium, not executed | Billing.InvoiceTaxAsWritten, Billing.InvoiceTaxAlwaysRaises | Billing.GenerateInvoice, Billing.InvoiceAddsUp |
| service_manager.py:135-138 | when exactly one of the two costs is supplied, the other comes from the row as a Decimal while the supplied one is a float; `labor + parts` raises TypeError and the update is lost | `update_service(1, labor_cost=100)` on a stored service | the total is recomputed from the new cost and the stored other cost | medium, not executed | ServiceManager.RecomputedTotalAsWritten, ServiceManager.OneSuppliedCostRaises | ServiceManager.UpdatedService, ServiceManager.UpdateKeepsRowRules |
