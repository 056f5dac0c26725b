# FinanceTracker ledger core, in Dafny

This project models the ledger and reporting core of the `FinanceTracker` class in `main.py`.
That class keeps an ordered list of transaction records, a running balance and a set of category
names, and saves all three to `transactions.json` after every change. The model covers:

- loading the ledger (or starting from the six default categories);
- adding a record, with its amount, category, type and date checks;
- editing a record in place, one field at a time;
- deleting a record by the number it was given when it was added;
- adding and removing categories;
- filtering the records by category, type and date range;
- the date-range summary, and the weekly and monthly reports with their per-category buckets.

Amounts are integer cents and dates are calendar triples. `today` and `now` are parameters. The
file that `save_data` writes is the field `stored`, and every error dialog becomes a `Failed`
outcome or a `None` result.

Modules, in dependency order:

- `Options`: `Option` and `Result`.
- `Digits`: decimal digit strings and their values.
- `Amount`: the amount checks, against the exact decimal value of the text.
- `Dates`: `format_date`, meaning `split('-')`, the four-character year, the fields `strptime`
  accepts, calendar validity and the not-in-the-future check.
- `Records`: the record type, the type check and the balance sums.
- `Periods`: day ordinals, and the weekly and monthly windows compared as datetimes.
- `Query`: `filter_transactions`.
- `Reports`: the summary and report figures as functions.
- `Ledger`: the `FinanceTracker` class and the lemmas about its operations.

The model follows the code, including where its behaviour is surprising:

- `update_transaction` never touches the balance, so an amount or type edit leaves the balance
  out of step with the records (`UpdateDrift`, `AmountEditBreaksBalance`).
- `update_transaction` takes a position in the list, while `delete_transaction` takes the number a
  record was given when it was added.
- That number is the list length at the time of adding, so after a deletion it can repeat
  (`IndexReuse`).
- The stored balance is loaded as saved; it is not recomputed.
- A date that `format_date` refuses does not refuse the record: the record is stored without a date.
- `generate_summary` accepts any pair of dates, including a start after the end.

## Model

| member | source | states |
|---|---|---|
| `Ledger.FinanceTracker.constructor` | main.py:9-35 | The ledger is the saved file's records, balance and categories when there is a file. Otherwise it is empty, with balance 0 and the six default categories. |
| `Ledger.NewRecord` | main.py:48-88 | A record is made iff the amount is accepted, the category is current and the type is Income or Expense. The first failing check names the error: the amount's reason, then unknown category, then unknown type. The record holds the parsed positive cents, the category, the type, the checked date (possibly none), the source and the given number. |
| `Ledger.FinanceTracker.AddTransaction` | main.py:48-97 | On success it appends that record, numbered by the current count, moves the balance by its signed amount and saves. On failure the ledger and the file are unchanged. Every stored date stays a calendar date. |
| `Ledger.AddKeepsDrift` | main.py:88-94 | Adding keeps the balance exactly as far from the records' signed sum as it was. |
| `Ledger.ApplyEdits` | main.py:167-205 | Edits never change a record's number or source. |
| `Ledger.ApplyEditsOutcome` | main.py:167-205 | The edit succeeds iff every supplied value is acceptable. Then each supplied field has its new value and the others are unchanged. The fields are checked in the order amount, category, type, and the first refused one names the failure. A refused amount writes nothing. A refused category keeps the amount already written. A refused type keeps the amount, category and date already written. |
| `Ledger.FinanceTracker.UpdateTransaction` | main.py:160-208 | An out-of-range position fails and changes nothing. Otherwise the record at that position becomes the edited record, even when a later field is refused. The file is written only when every edit went through. The balance and categories never change. |
| `Ledger.UpdatedWellDated` | main.py:197-199 | A date edit stores either a calendar date or nothing. |
| `Ledger.UpdateDrift` | main.py:186-205 | An update moves the gap between balance and records by exactly the change in the edited record's signed amount. |
| `Ledger.AmountEditBreaksBalance` | main.py:186 | In a consistent ledger, editing a record's amount to a different accepted value succeeds and leaves the balance wrong. |
| `Ledger.FinanceTracker.DeleteTransaction` | main.py:622-646 | It deletes iff some record carries the number. It pops the first such record, takes its signed amount back out of the balance and saves. Otherwise nothing changes. |
| `Ledger.DeleteKeepsDrift` | main.py:632-638 | Deleting keeps the balance exactly as far from the records' signed sum as it was. |
| `Ledger.DeletedWellDated` | main.py:632 | Popping a record keeps every stored date a calendar date. |
| `Ledger.IndexReuse` | main.py:626-632 | In a ledger numbered 0..n-1, after a deletion and an add the last two records carry the same number. Deleting by that number removes the older one. |
| `Records.PositionOf` | main.py:626-632 | The position of the first record carrying the number, or -1 exactly when none does. |
| `Ledger.FinanceTracker.AddCategory` | main.py:222-227 | It adds iff the name is new. The categories become the old set plus the name, records and balance are unchanged, and it saves only when it added. |
| `Ledger.FinanceTracker.RemoveCategory` | main.py:230-235 | It removes iff the name is a category. The categories become the old set minus the name, records keep the name, and it saves only when it removed. |
| `Ledger.RemovedCategoryBreaksSummary` | main.py:106-116 | Removing a category that an expense in range still uses makes the summary fail. |
| `Ledger.FinanceTracker.GenerateSummary` | main.py:103-132 | Its loop over the records dated between the bounds returns exactly `SummaryOf` of them. |
| `Ledger.SummaryStep` | main.py:111-116 | One more record adds its amount to the total of its kind. An expense also adds to its own bucket only. |
| `Reports.SummaryConsistent` | main.py:103-132 | The summary fails iff some expense's category has no bucket. Otherwise there is one bucket per current category, the buckets sum to the expenses, and net is income minus expenses. |
| `Reports.BucketsSumToTotal` | main.py:106-116 | When every record of a kind has a bucket, that kind's buckets add up to its total. |
| `Ledger.FinanceTracker.PeriodReport` | main.py:249-263 | The report loop returns exactly `PeriodReportOf`. That is none when any record has no date or a record in the window has no bucket, and otherwise the totals and buckets of the records in the window. |
| `Ledger.ScannedIsTally` | main.py:255-263 | Reading the first n records one at a time gives the tally of the prefix's records in the window, unless one of them has no date. |
| `Ledger.TallyStep` | main.py:257-263 | Tallying one more record of a current category counts it once, in its kind's total and its own bucket. |
| `Reports.ReportAgreesWithSummary` | main.py:249-263 | A report's totals, expense buckets and net are those of the summary over the same records. Its income buckets add up to its income. |
| `Ledger.FinanceTracker.WeeklyReport` | main.py:238-263 | The report over the window from one week before `now` up to `now`. |
| `Ledger.FinanceTracker.MonthlyReport` | main.py:307-332 | The report over the window from the first of now's month, at now's time of day, up to `now`. |
| `Periods.WeekWindowDays` | main.py:239-257 | A record's day is in the weekly window iff it is one of the last seven days up to today. The day exactly a week ago counts only when `now` is midnight. |
| `Periods.MonthWindowDays` | main.py:308-326 | A record's day is in the monthly window iff it falls after the first of the month and by today. The first itself counts only when `now` is midnight. |
| `Periods.OrdinalOrder` | main.py:257 | Comparing day ordinals is comparing dates: earlier iff a smaller ordinal, equal iff the same ordinal. |
| `Records.BalanceIsIncomeMinusExpense` | main.py:91-94 | The records' signed sum is total income minus total expenses. |
| `Records.ParseKind` | main.py:73-75 | The type is accepted iff it is exactly the name of a kind, and that kind is returned. |
| `Amount.ParseAmount` | main.py:50-67 | The checks run in the source's order: any character other than a digit or '.' is refused first, and then text with no digit or two points is refused as not a number. |
| `Amount.SplitLiteral` | main.py:55 | Digits and points form a number iff there is a digit and at most one point. It then splits into the digit runs before and after the point. |
| `Amount.ParseAmountExact` | main.py:50-67 | For a well-formed number N / 10^k: zero is refused as not positive, and a value that is not whole cents is refused as having too many decimals. Anything else is accepted as exactly 100 * N / 10^k cents. |
| `Amount.ParseAmountPositive` | main.py:56-58 | An accepted amount is strictly positive. |
| `Amount.FormatCentsRoundTrip` | main.py:55-63 | Every positive amount written with two decimals is accepted back as the same cents. |
| `Amount.ZeroRefused` | main.py:55-58 | Every spelling of zero that is a number ("0", "000", "0.00", ".0", "0.") is refused as not positive. |
| `Amount.ThreeDecimalsRefused` | main.py:61-63 | A nonzero digit after the second decimal is refused as too many decimals. |
| `Amount.TrailingZerosIgnored` | main.py:61 | Zeros after the second decimal change nothing, because `str(float)` drops them. |
| `Amount.NonNumericRefused` | main.py:50-52 | Any character other than a digit or '.' (a letter, a sign, a comma) is refused before anything else. |
| `Amount.NoDigitRefused` | main.py:65-67 | "." and "" are refused as not a number. |
| `Dates.SplitOn` | main.py:137 | `split('-')` gives at least one part, no part contains '-', and joining the parts back gives the text. |
| `Dates.MonthField` | main.py:145 | strptime's `%m` field accepts exactly one or two digits spelling a number from 1 to 12, and reads that number. |
| `Dates.DayField` | main.py:145 | strptime's `%d` field accepts exactly one or two digits spelling a number from 1 to 31, or a space and a digit from 1 to 9. It reads the number spelled, or the digit after the space. |
| `Dates.ParseDate` | main.py:137-145 | A date is read exactly when the text has three '-'-separated parts, the year is four digits, the month and day are fields strptime reads, and together they name a real calendar date; the date read is that year, month and day. |
| `Dates.CheckDate` | main.py:145-150 | An accepted date is a calendar date no later than today. |
| `Dates.FormatDate` | main.py:134-158 | Text is accepted iff it reads as a calendar date no later than today. The result is that date zero-padded, ten characters long, naming the same date as the input. |
| `Dates.ParseDateRoundTrip` | main.py:145-153 | The zero-padded form of any calendar date is read back as that date. |
| `Dates.FormatDateIdempotent` | main.py:153 | Formatting an already formatted date returns it unchanged. |
| `Dates.FormatDateAcceptsPast` | main.py:145-153 | Any calendar date in the padded form is accepted iff it is not after today. |
| `Dates.AnySpellingAccepted` | main.py:137-153 | With a four-digit year, every month spelling ("1", "01", "12") and day spelling ("5", "05", " 5", "15") that strptime accepts gives the zero-padded date, when that is a real date no later than today, and None otherwise. |
| `Dates.FieldsRefused` | main.py:137-158 | Three fields with a four-character year are refused when the year is not all digits or the month or day is not a field strptime reads ("abcd-01-01", "2024-13-01", "2024-01-32"). |
| `Dates.YearLengthRefused` | main.py:137-142 | Three parts whose year is not four characters long are refused. |
| `Dates.PartCountRefused` | main.py:137 | Text that does not split into exactly three parts is refused. |
| `Query.FilterMembers` | main.py:899-914 | A record is in the result iff it is in the ledger and matches every supplied criterion. |
| `Query.FilterConcat` | main.py:899-914 | Filtering distributes over concatenation, so the kept records stay in ledger order. |
| `Query.FilterIdempotent` | main.py:899-914 | Filtering the result again with the same arguments changes nothing. |
| `Query.KeepAllIsSelectAll` | main.py:900-913 | The successive comprehensions equal one pass that keeps the records satisfying all criteria. |
| `Query.CriteriaMeaning` | main.py:902-912 | Satisfying every switched-on comprehension is the same as matching the arguments; None or "" imposes nothing. |
| `Query.NoCriteria` | main.py:900-914 | With no argument given, the whole ledger comes back in order. |
| `Query.DateBoundDropsUndated` | main.py:908-912 | With a date bound, no record without a date is kept. |

## Left out

- The tkinter windows, dialogs, menus and the `*_gui` methods are not modelled. Error dialogs are `Failed` outcomes or `None` results.
- Reading and writing `transactions.json` is not modelled: the loaded file is the constructor's argument and each save is the assignment to `stored`. A file that is not valid JSON is not modelled.
- `Ledger.FinanceTracker.constructor`: requires every date in the loaded file to be a calendar date or none. A hand-edited file with other date text is not modelled.
- `Amount.ParseAmountExact`: amounts are exact decimals, so where `str(float(x))` differs from the decimal text the source and the model can disagree:
  - Values from 1e16 up to the overflow below: `str` writes exponent form. With two or more significant digits ("25000000000000000" gives "2.5e+16") the source sees more than two characters after the '.' and refuses the amount as too many decimals; the model accepts it. With one significant digit ("1e+16") both accept.
  - Literals of about 1.8e308 (2^1024) and more overflow: `float` gives `inf`, and `str(inf)` is "inf", which has no '.'. The source skips the decimal test and accepts every such literal ("25" followed by 400 zeros), stores `inf`, and adding or subtracting it makes the balance `inf` or `-inf`. The model accepts them as exact cents.
  - Positive values below 1e-4: with one significant digit ("0.00001" gives "1e-05") there is no '.', so the source accepts the amount and the model refuses it as too many decimals. With more significant digits ("0.000015" gives "1.5e-05") both refuse it as too many decimals.
  - A literal that underflows to 0.0 is refused by the source as not positive and by the model as too many decimals.
  - Literals with more than about 15 significant digits can print differently after `float` rounding: "0.1000000000000000001" prints as "0.1", so the source accepts it where the model refuses it as too many decimals.
  - Where both accept, the source stores a rounded float and the model the exact cents.
- `Ledger.FinanceTracker.AddTransaction`: the balance is exact integer cents, so the float rounding of the source's running balance is not modelled.
- `Amount.NonNumericRefused`: only ASCII digits count as digits. Python's `isdigit`, `float` and `strptime` also accept other Unicode decimal digits.
- `Dates.FormatDate`: always writes a four-digit year. `strftime('%Y')` on some platforms writes years before 1000 unpadded.
- `Ledger.FinanceTracker.WeeklyReport`: the week before a `now` in the first week of year 1 would overflow `timedelta` arithmetic. Such a `now` is not modelled specially.
- `view_balance` only prints the balance, so it is not modelled.
- The first `delete_transaction` (main.py:214-219) is not modelled, because the later definition at main.py:622 replaces it in the class.
- `Ledger.FinanceTracker.UpdateTransaction`: takes the position as an integer. The `int(index)` conversion and its "Invalid index format" error are not modelled.
- `Ledger.FinanceTracker.DeleteTransaction`: takes the number as an integer, so the `ValueError` path of `int(index)` is not modelled.
- `Ledger.FinanceTracker.GenerateSummary`: returns the figures rather than the rendered text. The bounds are dates, read at midnight, as the summary dialog passes them.
- `Ledger.FinanceTracker.PeriodReport`: returns the figures rather than the table rows. Any exception ends the report with `None`.
- `search_transactions_gui` and the menu methods are presentation and are not modelled.
