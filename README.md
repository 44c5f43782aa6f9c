# Minnesota payroll, budget and senate data loaders, modelled in Dafny

This project models the data-loading scripts of *For the Love of Minnesota*.
Those scripts move public Minnesota data into the site's database:

- `import_payroll.py` reads a fiscal year's payroll workbook. Its two sheets
  are "HR INFO" (one row per employee record) and "EARNINGS" (wages per
  temporary id). It parses each cell into a typed field, joins the two
  sheets on the temporary id (the last row of an id wins) and inserts the
  joined records in batches of 1000. A failed batch is counted as skipped.
- `import_budgets.py` reads a budget CSV file. It turns each row with an
  integer budget period into a record and counts the other rows as
  skipped. It upserts the records in batches of 1000. When an upsert
  fails it tries a plain insert. When that fails too, the file is
  abandoned and reported as `(0, skipped)`.
- `import_fy2025_payroll.py` builds the FY2025 payroll with pandas:
  - keep the first earnings row per id;
  - left merge on `TEMPORARY_ID` and stamp `fiscal_year = "2025"`;
  - turn dates into Excel serials, wages into numbers, and the last hire
    date into text;
  - rename and project onto the `payroll` schema, coerce the integer
    columns, and rewrite each record;
  - upsert in batches of 1000 until a batch raises.
- `fy2025_payroll_inspection.py` and `assess_payroll_files.py` audit the
  workbooks. They report null counts, distinct agencies, key uniqueness,
  per-year row counts and their total.
- `generate_senate_seed.py` reads the senate roster in markdown, one
  `## N. Name` header per senator followed by bold `**Label:**` lines and
  address lines. It writes a SQL seed: one `people` upsert per senator,
  the Minnesota Senate organisation, and one role per senator.

The model represents these pieces as follows:

- **Workbook cells.** A cell is the datatype `Cells.Cell`: empty, integer,
  exact decimal, text or timestamp.
- **Python built-ins.** `Text`, `Numbers` and `Collections` model the
  built-ins the scripts depend on: `strip`, `int()`, `float()`, `str()`,
  dict last-write-wins, `set`/`sorted`, and `range(0, n, B)` slices.
- **The database.** Each call's outcome (rows returned, or an exception)
  comes from a given sequence, `Store.Outcome`. So the loaders' counters
  and the batches they send are stated for every possible database
  behaviour.

Each loop in the scripts is a method with invariants. It is proved equal to
a specification function. The properties are lemmas about those
functions:

- round trips such as `int(str(i))`, `float(str(x))`, the senate header
  line and e-mail address, and SQL quoting read back;
- which row wins in a join;
- order preservation;
- counters that account for every row;
- the file's abandonment at the first doubly-failed batch;
- that the SQL seed has one people block and one role block per header,
  in header order.

## Model

| member | source | states |
|---|---|---|
| Cells.CellAt | scripts/import_payroll.py:138-141 | A 1-based column inside the row gives that cell; column 0 or past the row's end gives an empty cell, as `sheet.cell().value` does for short rows. |
| Cells.SheetNames | scripts/import_payroll.py:221-222 | The sheet names are the workbook's sheets' names, in workbook order. |
| Cells.SheetNamed | scripts/import_payroll.py:235 | `workbook[name]` is a sheet of the workbook with that name. |
| Cells.TruthyNum | scripts/import_payroll.py:85 | A float cell is false exactly when its value is zero. |
| Cells.FloatOfText | scripts/import_payroll.py:69-76 | `float(text)` only succeeds on text that is not blank. |
| Cells.IntOfText | scripts/import_budgets.py:51-58 | `int(text)` only succeeds on text that is not blank. |
| Cells.IntTextReadsBack | scripts/import_budgets.py:51-58 | `int(str(i)) == i`. |
| Cells.IntTextReadsBackAsFloat | scripts/import_payroll.py:60-77 | `float(str(i))` is `i` with no fraction. |
| Cells.FloatTextReadsBack | scripts/import_payroll.py:60-77 | `float(str(x))` has the value of `x`. |
| Cells.IntTextTrimmed | scripts/import_payroll.py:80-89 | `str(i)` is already stripped. |
| Cells.NumberTextTrimmed | scripts/import_payroll.py:80-89 | Text made of digits, signs and points is already stripped. |
| Cells.FindSheetByPattern | scripts/import_payroll.py:110-115 | The result is the first sheet name, in workbook order, containing the pattern, ignoring case; there is none exactly when no name contains it. |
| Cells.FindSheetByPatternFirst | scripts/assess_payroll_files.py:20-24 | The sheet found is the first one, in workbook order, whose name contains the pattern. |
| Cells.FirstActiveIndex | scripts/import_payroll.py:124-128 | The position of the first header naming the active-on-June-30 column; none exactly when no header names it. |
| Cells.FirstActiveHeader | scripts/assess_payroll_files.py:27-36 | The header returned is one of the headers, names the active-on-June-30 column, and no header before it does; none exactly when no header names it. |
| Cells.ActiveColumn | scripts/import_payroll.py:118-130 | Without an HR sheet there is no active column; with one, the result is the first active header of that sheet's header row, and a column found always names the active-on-June-30 column. |
| ImportPayroll.ParseInteger | scripts/import_payroll.py:40-57 | Integers are kept, floats and numeric text are truncated toward zero, and empty cells, dates and other text give `None`. |
| ImportPayroll.ParseIntegerOfText | scripts/import_payroll.py:49-56 | Text that `float()` reads as `d` gives the truncation of `d`. |
| ImportPayroll.NullTextNoNumber | scripts/import_payroll.py:51-52 | Blank text and a lone dash hold no number. |
| ImportPayroll.ParseIntegerIntText | scripts/import_payroll.py:40-57 | The text of a whole number, with or without surrounding blanks, reads back as that number. |
| ImportPayroll.ParseIntegerTruncates | scripts/import_payroll.py:53-54 | `"12.0"` and `"12.9"` give 12 and `"-12.9"` gives -12: truncation toward zero, not rounding. |
| ImportPayroll.ParseFloat | scripts/import_payroll.py:60-77 | A number cell gives its value; numeric text gives the value `float()` reads; empty, dates and other text give `None`. |
| ImportPayroll.ParseFloatOfText | scripts/import_payroll.py:69-76 | Text that `float()` reads as `d` gives the value of `d`. |
| ImportPayroll.ParseFloatText | scripts/import_payroll.py:60-77 | What `str()` writes for a float or an integer reads back as the same value. |
| ImportPayroll.ParseText | scripts/import_payroll.py:80-89 | `None` exactly for empty cells, zero numbers, and blank or dash text; otherwise the text is stripped, non-empty and not `-`, and a number gives its `str()`. |
| ImportPayroll.ParseLastHireDate | scripts/import_payroll.py:92-107 | Numbers and numeric text become whole-number text, other text is stripped, and empty, blank or dash gives `None`. |
| ImportPayroll.ParseLastHireDateOfNumber | scripts/import_payroll.py:102-104 | Text that `float()` reads as `d` becomes the text of `d`'s whole part. |
| ImportPayroll.LastHireDateSerial | scripts/import_payroll.py:102-104 | The date serial `"44000.0"` is written `"44000"`. |
| ImportPayroll.LastHireDateDash | scripts/import_payroll.py:99-101 | A dash with blanks around it is no date. |
| ImportPayroll.LastHireDateOfIntText | scripts/import_payroll.py:102-104 | Whole-number text is its own last hire date. |
| ImportPayroll.LastHireDateOfText | scripts/import_payroll.py:105-106 | Stripped text that is not a number is its own last hire date. |
| ImportPayroll.LastHireDateIdempotent | scripts/import_payroll.py:92-107 | Parsing the produced text again gives it back. |
| ImportPayroll.RowPairs | scripts/import_payroll.py:136-141 | The pairs that fill the row dict, one per header: the header and its column's cell. |
| ImportPayroll.RowDataKeys | scripts/import_payroll.py:136-141 | The row dict's keys are exactly the headers. |
| ImportPayroll.RowDataLookup | scripts/import_payroll.py:136-141 | A header's column gives its value, and a header past the row's end gives `None`. |
| ImportPayroll.BuildRowData | scripts/import_payroll.py:136-141 | The dict-building loop produces the row dict. |
| Cells.Get | scripts/import_payroll.py:143 | `data.get(key)` is the stored value, and `None` for a missing key; the same reading gives an empty cell for a column a pandas row lacks. |
| ImportPayroll.ParseHrData | scripts/import_payroll.py:143-184 | No record exactly when the temporary id does not parse; otherwise the record carries that id, and no active flag without an active column. |
| ImportPayroll.ParseHrRow | scripts/import_payroll.py:133-184 | No record exactly when the row's `TEMPORARY_ID` does not parse; a record's id is non-empty and stripped. |
| ImportPayroll.WageOrZero | scripts/import_payroll.py:203-206 | `parse_float(v) or 0.0`: the parsed value, or 0.0 when there is none. |
| ImportPayroll.WageOrZeroDefaults | scripts/import_payroll.py:203-206 | Missing, blank, dash or unreadable wages are 0.0. |
| ImportPayroll.ParseEarningsData | scripts/import_payroll.py:197-207 | No record exactly when the id does not parse; otherwise the record carries that id and each of the regular, overtime, other and total wages as parsed, or 0.0. |
| ImportPayroll.ParseEarningsRow | scripts/import_payroll.py:187-210 | No record exactly when the row's `TEMPORARY_ID` does not parse; a record's id is non-empty and its four wages are numbers, each the row's parsed cell or 0.0. |
| ImportPayroll.HrRecords | scripts/import_payroll.py:240-243 | The HR records come from the rows in order, at most one per row. |
| ImportPayroll.EarningsRecords | scripts/import_payroll.py:251-254 | The earnings records come from the rows in order, at most one per row. |
| ImportPayroll.Keyed | scripts/import_payroll.py:243-254 | Each record is stored under its own key, in order: `temporary_id` for both `hr_data` and `earnings_data`. |
| ImportPayroll.HrIds | scripts/import_payroll.py:243 | The ids of the records, in order. |
| ImportPayroll.HrDataKeyed | scripts/import_payroll.py:240-243 | Every stored HR record is the record of the id it is stored under. |
| ImportPayroll.HrIdsAreKeys | scripts/import_payroll.py:240-243 | Every id among the HR records is a key of `hr_data`. |
| ImportPayroll.Join | scripts/import_payroll.py:258-269 | One row per distinct HR id, in first-occurrence order, each stamped with the fiscal year's text and with no id repeated. |
| ImportPayroll.JoinCount | scripts/import_payroll.py:258-269 | There are as many joined records as distinct HR ids. |
| ImportPayroll.JoinTakesLastHrRow | scripts/import_payroll.py:240-243 | The last HR row of an id is the record that reaches the output. |
| ImportPayroll.JoinWages | scripts/import_payroll.py:258-269 | The wages are those of the last earnings row with the same id, and all four are 0.0 when there is none. |
| ImportPayroll.JoinOrder | scripts/import_payroll.py:258-269 | Output rows keep the order in which their ids first appear among the HR rows. |
| ImportPayroll.HrDataStep | scripts/import_payroll.py:243 | Storing one more HR record replaces that id's value, and a new id goes to the end of the key order. |
| ImportPayroll.EarningsDataStep | scripts/import_payroll.py:254 | Storing one more earnings record replaces that id's value. |
| ImportPayroll.CollectHr | scripts/import_payroll.py:240-243 | The HR loop builds `hr_data` (last record per id) and the dict's key order. |
| ImportPayroll.CollectEarnings | scripts/import_payroll.py:251-254 | The earnings loop builds `earnings_data`, the last record per id. |
| ImportPayroll.JoinAt | scripts/import_payroll.py:258-269 | The `k`-th joined row combines the last HR record of the `k`-th distinct id with that id's last earnings record, or with none. |
| ImportPayroll.JoinRecords | scripts/import_payroll.py:258-269 | The loop over `hr_data` produces exactly the join. |
| ImportPayroll.InsertTotalsAccount | scripts/import_payroll.py:276-290 | When each insert reports no data or its whole batch, inserted + skipped is the number of records; all failing means nothing inserted, and none failing means nothing skipped. |
| ImportPayroll.InsertTotalsStep | scripts/import_payroll.py:282-288 | One more batch changes the counters by that batch's outcome. |
| ImportPayroll.InsertBatches | scripts/import_payroll.py:276-290 | The batches sent are the records in slices of 1000, in order, and the counters are the tallies of their outcomes; a failed batch does not stop the loop. |
| ImportPayroll.ImportPayrollFile | scripts/import_payroll.py:213-290 | If either sheet is missing, the result is `(0, 0)` and nothing is sent; otherwise the join of the two sheets is sent in batches of 1000, counted as the outcomes say. |
| ImportBudgets.Lookup | scripts/import_budgets.py:71-86 | `row.get(key, default)`: a missing column gives the default. |
| ImportBudgets.ParseDecimal | scripts/import_budgets.py:39-48 | Blank text is 0.0; otherwise the value `float()` reads once commas are removed, or 0.0 when it cannot read it. |
| ImportBudgets.ParseDecimalPlain | scripts/import_budgets.py:39-48 | Text without commas or blanks that `float()` reads keeps its value. |
| ImportBudgets.ParseDecimalFloatText | scripts/import_budgets.py:39-48 | `str()` of a float reads back as the same value. |
| ImportBudgets.ParseDecimalThousands | scripts/import_budgets.py:45 | `"1,234.50"` is 1234.5: the thousands separator is dropped. |
| ImportBudgets.ParseInteger | scripts/import_budgets.py:51-58 | Blank gives `None`; otherwise the result is `int()` of the stripped text. |
| ImportBudgets.ParseIntegerIntText | scripts/import_budgets.py:51-58 | `str(i)` reads back as `i`. |
| ImportBudgets.ParseIntegerRejectsPoint | scripts/import_budgets.py:55-58 | `"5.0"` is not an integer period. |
| ImportBudgets.NormalizeText | scripts/import_budgets.py:61-65 | `None` exactly for missing or blank values; otherwise the stripped, non-empty text. |
| ImportBudgets.NormalizeTextIdempotent | scripts/import_budgets.py:61-65 | Normalising twice changes nothing, and `" - "` stays the text `-`. |
| ImportBudgets.ParseBudgetRow | scripts/import_budgets.py:68-90 | No record exactly when the budget period is not an integer; otherwise the period, the normalised agency, fund, program and activity, and each of the six amounts parsed with default `"0"`. |
| ImportBudgets.MissingAmountIsZero | scripts/import_budgets.py:81-86 | A missing or empty amount column is 0.0. |
| ImportBudgets.ZeroDefault | scripts/import_budgets.py:81-86 | The default `"0"` reads as 0.0. |
| ImportBudgets.BudgetRecords | scripts/import_budgets.py:104-111 | The records of the valid rows, in input order, at most one per row. |
| ImportBudgets.BudgetRecordsAccount | scripts/import_budgets.py:104-111 | Every row is either a record or counted as skipped. |
| ImportBudgets.CollectBudgetRows | scripts/import_budgets.py:104-111 | The row loop appends exactly the valid rows' records and counts the others. |
| ImportBudgets.BatchGain | scripts/import_budgets.py:121-140 | A batch gives nothing exactly when both its upsert and its insert fail; a successful upsert gives its reported row count. |
| ImportBudgets.FirstAbortFirst | scripts/import_budgets.py:138-140 | The batch found is the first one (from the start point) whose upsert and insert both fail; none is found when no batch fails both. |
| ImportBudgets.FirstAbortAt | scripts/import_budgets.py:138-140 | A doubly-failed batch stops the search there; any other batch passes the search on. |
| ImportBudgets.UpsertTotalBound | scripts/import_budgets.py:118-142 | When no call reports more rows than its batch holds, the total never exceeds the number of records. |
| ImportBudgets.UpsertTotalStep | scripts/import_budgets.py:118-142 | One more batch adds its gain to the total. |
| ImportBudgets.UpsertBatches | scripts/import_budgets.py:118-149 | Batches of 1000 are sent in order. At the first batch whose upsert and insert both fail, sending stops and the count is 0; with no such batch everything is sent and the count is the sum of the gains. |
| ImportBudgets.ImportBudgetFile | scripts/import_budgets.py:93-149 | Skipped counts the invalid rows. With no valid row nothing is sent; otherwise the batches and the count are as `UpsertBatches` states. |
| ImportFy2025.FindSheetContaining | scripts/import_fy2025_payroll.py:38-39 | The first sheet name containing the pattern, with case respected; none exactly when no name contains it. |
| ImportFy2025.SheetFrame | scripts/import_fy2025_payroll.py:44-45 | The frame loaded is one of the workbook's sheets under that name. |
| ImportFy2025.KeepFirst | scripts/import_fy2025_payroll.py:48 | `drop_duplicates(keep="first")` keeps at most the input's rows. |
| ImportFy2025.KeepFirstKeys | scripts/import_fy2025_payroll.py:48 | The rows kept carry each key once, in the order the keys first appear. |
| ImportFy2025.KeepFirstIsFirst | scripts/import_fy2025_payroll.py:48 | Every row kept is the first input row with its key. |
| ImportFy2025.FirstMatch | scripts/import_fy2025_payroll.py:51 | The right row matched is one with the key; there is no match exactly when no right row has it. |
| ImportFy2025.UniqueMatch | scripts/import_fy2025_payroll.py:48-51 | After deduplication, a right row with the key is the match. |
| ImportFy2025.Merge | scripts/import_fy2025_payroll.py:51 | A left merge keeps one row per left row; left columns shared with the right side get the `_x` suffix. |
| ImportFy2025.UnmatchedIsEmpty | scripts/import_fy2025_payroll.py:51 | A right-only column is empty in a row whose key has no match. |
| ImportFy2025.MatchedCarries | scripts/import_fy2025_payroll.py:51 | A right-only column carries the matched right row's value. |
| ImportFy2025.MergeKeepsLeft | scripts/import_fy2025_payroll.py:51 | A left column the right side lacks (or the join key) keeps its name and, in merged row i, left row i's own value, unless a `_x`/`_y` name collides with it. |
| ImportFy2025.MergeSuffixesShared | scripts/import_fy2025_payroll.py:51 | A non-key column both sides have appears as `c_x` with left row i's own value in merged row i, unless a column is already called `c_x`. |
| Collections.LastMapOfFirst | scripts/import_fy2025_payroll.py:51 | When later assignments never name a key, the key keeps the value all earlier assignments give it. |
| ImportFy2025.SetColumn | scripts/import_fy2025_payroll.py:54 | `df[name] = values` replaces the column, or appends it when new, and sets each row's value. |
| ImportFy2025.Apply | scripts/import_fy2025_payroll.py:67-68 | `df[src].apply(g)` is `g` of each row's value, in row order. |
| ImportFy2025.Drop | scripts/import_fy2025_payroll.py:71 | `drop(errors="ignore")` keeps the rows and removes exactly the named columns. |
| ImportFy2025.Rename | scripts/import_fy2025_payroll.py:130 | Every column takes its new name under the map, in place. |
| ImportFy2025.RenameKeeps | scripts/import_fy2025_payroll.py:130 | A column the map neither moves nor targets keeps its values. |
| ImportFy2025.Present | scripts/import_fy2025_payroll.py:150 | The columns kept are exactly the schema columns present. |
| ImportFy2025.PresentAt | scripts/import_fy2025_payroll.py:150 | The position in the schema of each projected column. |
| ImportFy2025.PresentInOrder | scripts/import_fy2025_payroll.py:150 | Projected columns are in schema order. |
| ImportFy2025.Restrict | scripts/import_fy2025_payroll.py:150 | A projected row has exactly the kept columns, with their values. |
| ImportFy2025.Project | scripts/import_fy2025_payroll.py:137-150 | The projection has the present schema columns and each row restricted to them. |
| ImportFy2025.ToIntSafe | scripts/import_fy2025_payroll.py:57-65 | Empty gives `None`; an integer is kept; a timestamp gives `int(seconds / 86400 + 25569)`; anything else gives `None`. |
| ImportFy2025.EpochSerial | scripts/import_fy2025_payroll.py:63 | 1970-01-01 is Excel serial 25569. |
| ImportFy2025.SameDaySameSerial | scripts/import_fy2025_payroll.py:63 | Every instant of a day on or after 1899-12-30 (serial 0) has that day's serial; earlier days are not covered, since `int()` truncates their serials toward zero. |
| ImportFy2025.WageCell | scripts/import_fy2025_payroll.py:74-76 | A wage becomes a number: numeric text gives its value, and anything unreadable or empty gives 0. |
| ImportFy2025.WageDefaults | scripts/import_fy2025_payroll.py:73-76 | Dash, blank and empty wages are 0. |
| ImportFy2025.LastHireSafe | scripts/import_fy2025_payroll.py:79-84 | Empty, exactly `-`, or blank gives `None`; anything else gives its stripped text. |
| ImportFy2025.LastHireSafeSpacedDash | scripts/import_fy2025_payroll.py:82 | `" - "` is not exactly `-`, so it is kept as `"-"`. |
| ImportFy2025.ActiveColumn | scripts/import_fy2025_payroll.py:126 | The first column whose upper-cased name contains `ACTIVE_ON_JUNE_30`; none exactly when no column's does. |
| ImportFy2025.RenameMap | scripts/import_fy2025_payroll.py:90-128 | The fixed map, plus the active column renamed to `active_on_june_30` when there is one. |
| ImportFy2025.RenameMapAvoidsFiscalYear | scripts/import_fy2025_payroll.py:90-130 | The rename neither moves `fiscal_year` nor renames anything to it. |
| ImportFy2025.RecordNumber | scripts/import_fy2025_payroll.py:133-134 | `to_numeric(errors="coerce").astype("Int64")` on one value: empty stays empty, an integer is kept, a float casts when it has no fraction and raises otherwise, numeric text is read as a float and cast the same way, unreadable text becomes empty, and a timestamp becomes its nanoseconds since 1970. |
| ImportFy2025.WholeOrFail | scripts/import_fy2025_payroll.py:134 | A float casts to `Int64` exactly when it has no fraction. |
| ImportFy2025.IntOrFail | scripts/import_fy2025_payroll.py:156-159 | `int(x)` unless empty: empty stays empty, integers are kept, floats are truncated toward zero, text succeeds exactly when it is integer text and then gives its value, and a timestamp raises. |
| ImportFy2025.ApplyOrFail | scripts/import_fy2025_payroll.py:156-159 | Either every row converts and the column holds the results, or some row's conversion fails. |
| ImportFy2025.FixValue | scripts/import_fy2025_payroll.py:172-180 | Integer-column values become integers or `None`; other columns and empty values are left as they are. |
| ImportFy2025.FixRecord | scripts/import_fy2025_payroll.py:171-180 | A rewritten record has the same keys, each value fixed. |
| ImportFy2025.FixRecordIdempotent | scripts/import_fy2025_payroll.py:171-180 | Rewriting a record twice is rewriting it once. |
| ImportFy2025.FixRecordAfterCoercion | scripts/import_fy2025_payroll.py:156-180 | After the column coercion, the per-record rewrite changes nothing. |
| ImportFy2025.FixOne | scripts/import_fy2025_payroll.py:172-180 | The inner loop over one dict's items produces the rewritten record. |
| ImportFy2025.FixRecords | scripts/import_fy2025_payroll.py:171-180 | The loop rewrites every record, and afterwards every integer column holds an integer or `None`. |
| ImportFy2025.SetColumnStamped | scripts/import_fy2025_payroll.py:54-68 | Setting another column keeps the fiscal-year stamp on every row. |
| ImportFy2025.DropStamped | scripts/import_fy2025_payroll.py:71 | Dropping other columns keeps the stamp. |
| ImportFy2025.RenameStamped | scripts/import_fy2025_payroll.py:130 | The rename keeps the stamp. |
| ImportFy2025.ProjectStamped | scripts/import_fy2025_payroll.py:150 | The projection keeps the stamp. |
| ImportFy2025.ProjectRectangular | scripts/import_fy2025_payroll.py:150 | After the projection every row holds exactly the frame's columns. |
| ImportFy2025.MergeEarnings | scripts/import_fy2025_payroll.py:48-54 | The deduplicated left merge, plus `fiscal_year` = `"2025"` on every row: its columns are the merge's and `fiscal_year`, and every other value is the merge's. |
| ImportFy2025.Merged | scripts/import_fy2025_payroll.py:48-51 | The merge keeps one row per HR row. |
| ImportFy2025.ApplyInto | scripts/import_fy2025_payroll.py:67-68 | `df[dst] = df[src].apply(g)`: the columns gain `dst`, each row's `dst` is `g` of its `src`, and every other value and key is kept. |
| ImportFy2025.ConvertDates | scripts/import_fy2025_payroll.py:67-71 | The rows are kept; the columns gain `original_hire_date` and `job_entry_date` and lose `ORIGINAL_HIRE_DATE` and `JOB_ENTRY_DATE`. |
| ImportFy2025.ConvertDatesValues | scripts/import_fy2025_payroll.py:67-71 | In every row the new date columns hold `to_int_safe` of the originals, and the originals are gone. |
| ImportFy2025.ConvertDatesRow | scripts/import_fy2025_payroll.py:67-71 | The same, for one row. |
| ImportFy2025.ConvertDatesKeeps | scripts/import_fy2025_payroll.py:67-71 | Every value outside the four date names is unchanged. |
| ImportFy2025.DateKeptAt | scripts/import_fy2025_payroll.py:67-71 | One value outside the four date names, unchanged. |
| ImportFy2025.WagesConverted | scripts/import_fy2025_payroll.py:74-76 | After the first `w` wage columns: the columns and rows are kept, each of those wage columns the frame has is converted to a number in every row, and every other value is unchanged. |
| ImportFy2025.ConvertWages | scripts/import_fy2025_payroll.py:74-76 | The loop converts exactly the four wage columns the frame has. |
| ImportFy2025.WageConvertedAt | scripts/import_fy2025_payroll.py:74-76 | A wage column the frame has holds the number read from its old value. |
| ImportFy2025.WageKeptAt | scripts/import_fy2025_payroll.py:74-76 | Any other value is unchanged by the wage loop. |
| ImportFy2025.ConvertLastHire | scripts/import_fy2025_payroll.py:86-87 | The rows are kept; `last_hire_date` replaces `LAST_HIRE_DATE` in the columns and in every row, holding `last_hire_safe` of the old value; every other value is unchanged. |
| ImportFy2025.ConvertColumns | scripts/import_fy2025_payroll.py:67-87 | The three conversions keep one row per input row. |
| ImportFy2025.ConvertColumnsStamped | scripts/import_fy2025_payroll.py:54-87 | The conversions keep the fiscal-year stamp. |
| ImportFy2025.ConvertColumnsColumns | scripts/import_fy2025_payroll.py:67-87 | The columns after the conversions are the old ones and the three new names, less the three originals. |
| ImportFy2025.ConvertColumnsDates | scripts/import_fy2025_payroll.py:67-87 | In each row the three new date columns hold the converted originals. |
| ImportFy2025.ConvertColumnsWages | scripts/import_fy2025_payroll.py:74-87 | In each row the wage columns present are converted, and every value the conversions do not touch is unchanged. |
| ImportFy2025.WideFrame | scripts/import_fy2025_payroll.py:48-87 | The wide frame has one row per HR row. |
| ImportFy2025.Widen | scripts/import_fy2025_payroll.py:48-87 | Succeeds exactly when `TEMPORARY_ID` is on both sides and the three date columns are in the merge; the frame returned is then the merge stamped and converted. |
| ImportFy2025.CastOf | scripts/import_fy2025_payroll.py:133-159 | The cast a schema column goes through: the record-number cast for `record_nbr`, `int()` for the other integer columns, none otherwise. |
| ImportFy2025.RecordCastFails | scripts/import_fy2025_payroll.py:133-134 | A record number that does not cast means not every cast succeeds. |
| ImportFy2025.RecordCastSet | scripts/import_fy2025_payroll.py:133-134 | Writing the cast record numbers back changes exactly that column, to the cast values. |
| ImportFy2025.RecordCastNone | scripts/import_fy2025_payroll.py:133 | Without a `record_nbr` column nothing is cast. |
| ImportFy2025.CoerceFailureIsCastFailure | scripts/import_fy2025_payroll.py:133-159 | A failed `int()` in the coercion of the projection is a failed cast of the renamed frame. |
| ImportFy2025.CastFailureIsCoerceFailure | scripts/import_fy2025_payroll.py:133-159 | A failed cast of the renamed frame is a failed `int()` in the coercion of the projection. |
| ImportFy2025.NarrowCoerceFails | scripts/import_fy2025_payroll.py:133-159 | After the record-number cast, the coercion of the projection fails exactly when some cast of the renamed frame fails. |
| ImportFy2025.NarrowValueAt | scripts/import_fy2025_payroll.py:133-159 | One value of the coerced projection is the cast of the renamed frame's value. |
| ImportFy2025.NarrowCoerceValues | scripts/import_fy2025_payroll.py:133-159 | A successful coercion of the projection keeps the schema columns present, in schema order, one row per row, each value cast. |
| ImportFy2025.Narrow | scripts/import_fy2025_payroll.py:126-159 | Succeeds exactly when every cast of the renamed frame succeeds; the result then keeps the schema columns present, in schema order, with each value of the renamed frame cast, every row holding exactly those columns, and the stamp. |
| ImportFy2025.IntColumnsDistinct | scripts/import_fy2025_payroll.py:156 | No integer column is listed twice. |
| ImportFy2025.CoerceStep | scripts/import_fy2025_payroll.py:157-159 | Converting the next integer column the frame has extends the coercion by that column. |
| ImportFy2025.CoerceSkip | scripts/import_fy2025_payroll.py:158 | An integer column the frame lacks is passed over. |
| ImportFy2025.CoerceFails | scripts/import_fy2025_payroll.py:157-159 | A failed conversion fails on a value the input frame holds. |
| ImportFy2025.CoerceIntColumns | scripts/import_fy2025_payroll.py:156-159 | Raises exactly when some value of an integer column present fails `int()`; otherwise the columns, rows and stamp are kept, each integer column present holds `int()` of its old values, and every other value is unchanged. |
| ImportFy2025.NarrowedRowsFixed | scripts/import_fy2025_payroll.py:171-180 | The record loop leaves the rows of the narrowed frame as they are. |
| ImportFy2025.RecordsOf | scripts/import_fy2025_payroll.py:171-180 | On narrowed rows the record loop changes nothing. The records are the frame's rows, each with `fiscal_year` = `"2025"` and integer columns holding integers or `None`. |
| ImportFy2025.BuildRecords | scripts/import_fy2025_payroll.py:126-180 | Succeeds exactly when every cast succeeds; the records are then the narrowed rows, one per input row, with `fiscal_year` = `"2025"` and integer columns holding integers or `None`. |
| ImportFy2025.Prepare | scripts/import_fy2025_payroll.py:48-180 | Succeeds exactly when the columns read are there and every cast succeeds; the records are then the wide frame renamed, projected and cast, one per HR row, with `fiscal_year` = `"2025"` and integer columns holding integers or `None`. |
| ImportFy2025.UpsertAll | scripts/import_fy2025_payroll.py:186-192 | The loop sends exactly the reference run on the given answers. |
| ImportFy2025.SendFromRun | scripts/import_fy2025_payroll.py:186-192 | From any batch on, the reference run sends the next batches in order and stops exactly at the first raised upsert, or sends them all. |
| ImportFy2025.UpsertOutcomeRun | scripts/import_fy2025_payroll.py:186-192 | The reference run is an upsert run: a prefix of the 1000-record slices, every upsert before the last succeeded, `failed` exactly when the last raised, and all of them without a failure. |
| ImportFy2025.UpsertRunUnique | scripts/import_fy2025_payroll.py:186-192 | The store's answers determine the batches sent and whether the run failed. |
| ImportFy2025.UpsertRunIsOutcome | scripts/import_fy2025_payroll.py:186-192 | Any batches and flag that fit the store's answers as an upsert run are the reference run. |
| ImportFy2025.SendingStep | scripts/import_fy2025_payroll.py:187-192 | One pass of the loop sends the next slice of at most 1000 records. The batch's answer sets the failure flag. What the loop knows still holds. |
| ImportFy2025.SendingDone | scripts/import_fy2025_payroll.py:186-192 | When every record is consumed or an upsert raised, the batches sent and the flag are the reference run. |
| ImportFy2025.UpsertRunAllSucceed | scripts/import_fy2025_payroll.py:186-192 | When every upsert succeeds, every batch is sent and the run does not fail. |
| ImportFy2025.PrepareSheets | scripts/import_fy2025_payroll.py:37-180 | A missing sheet gives the script's message; otherwise the outcome is `Prepare`'s on the two sheets found. |
| ImportFy2025.ImportFy2025 | scripts/import_fy2025_payroll.py:31-193 | A missing sheet gives the script's message; with both sheets found, the outcome is `Prepare`'s on them; an error sends nothing; otherwise the sends are the reference run on the records. |
| Inspection.FindSheet | scripts/fy2025_payroll_inspection.py:19-23 | The first sheet, in workbook order, whose name contains the pattern, ignoring case; none exactly when no name contains it. |
| Inspection.ColIdx | scripts/fy2025_payroll_inspection.py:77-82 | The 1-based position of the first non-empty header equal to the name after strip and upper-case; none exactly when no header is. |
| Inspection.Esc | scripts/fy2025_payroll_inspection.py:151-152 | The escaped text, closed by a quote, reads back as the original: every quote is doubled. |
| Inspection.EarningsKey | scripts/fy2025_payroll_inspection.py:93-97 | An earnings row's key is its non-empty, stripped column-1 text. |
| Inspection.EarningsPairs | scripts/fy2025_payroll_inspection.py:92-98 | The earnings loop makes at most one assignment per row. |
| Inspection.EarningsByIdKeys | scripts/fy2025_payroll_inspection.py:91-98 | An id is stored exactly when some earnings row has it as a non-empty key. |
| Inspection.EarningsStep | scripts/fy2025_payroll_inspection.py:92-98 | One more row stores its wage under its non-empty id and otherwise changes nothing. |
| Inspection.BuildEarningsById | scripts/fy2025_payroll_inspection.py:91-98 | The loop builds the last-write-wins map of the assignments. |
| Inspection.EarningsByIdLast | scripts/fy2025_payroll_inspection.py:96-98 | The wage stored for an id is that of its last earnings row (column 5, or `None` for narrow sheets). |
| Inspection.AgencyOf | scripts/fy2025_payroll_inspection.py:120-121 | An agency collected is non-empty and stripped. |
| Inspection.Agencies | scripts/fy2025_payroll_inspection.py:104-121 | At most one agency per row, in row order. |
| Inspection.AgenciesFromRows | scripts/fy2025_payroll_inspection.py:120-121 | An agency is collected exactly when some row gives it, and it is non-empty and stripped. |
| Inspection.KeyList | scripts/fy2025_payroll_inspection.py:122-123 | At most one key per row. |
| Inspection.ScanHr | scripts/fy2025_payroll_inspection.py:101-123 | The HR loop's counters are the counts of rows with a missing employee, a missing agency, or a missing/blank/dash wage; the agencies and keys are the rows' own, in row order. |
| Inspection.UniqueIffNoRepeat | scripts/fy2025_payroll_inspection.py:139-145 | The set of keys is as large as the list exactly when no two keys are equal, so the warning flags a real repeat. |
| Inspection.Inspect | scripts/fy2025_payroll_inspection.py:39-153 | No report exactly when either sheet is missing; otherwise the counts are bounded by the HR rows, and the distinct agencies are strictly sorted, non-empty and stripped. |
| Assess.ColumnOr | scripts/assess_payroll_files.py:147 | The column of the first name or of the second; none exactly when no header names either. |
| Assess.ColumnOrPrefersFirst | scripts/assess_payroll_files.py:147 | When a header names the first, that column wins. |
| Assess.Kept | scripts/assess_payroll_files.py:161-168 | A value kept is non-empty and stripped. |
| Assess.CollectListAndSet | scripts/assess_payroll_files.py:160-168 | One pass appends what the first selector yields and adds to a set what the second yields. |
| Assess.CollectHr | scripts/assess_payroll_files.py:156-168 | The agency list and the name set are exactly the rows' kept values. |
| Assess.KeptFromRows | scripts/assess_payroll_files.py:160-164 | A value is in the list exactly when some row gives it. |
| Assess.SortedDistinctLength | scripts/assess_payroll_files.py:186-209 | `sorted(Counter(a).keys())` has as many entries as there are distinct agencies. |
| Assess.SetOfSeqSize | scripts/assess_payroll_files.py:186-191 | There are no more distinct values than entries. |
| Assess.SampleQuality | scripts/assess_payroll_files.py:132-209 | An error exactly when a sheet is missing. Otherwise the distinct list is `sorted(set(...))` of the agency values the HR rows give, the unique-agency count is the number of those distinct values and equals the list's length, and the unique-employee count is the number of distinct names the rows give. The list is strictly sorted, its entries non-empty and stripped, and both counts are bounded by the HR rows. |
| Assess.YearCount | scripts/assess_payroll_files.py:81-99 | A year counts its HR data rows exactly when both sheets are found. |
| Assess.TotalBounds | scripts/assess_payroll_files.py:220 | Every year's count is part of the total. |
| Assess.TotalSnoc | scripts/assess_payroll_files.py:220 | One more year adds its count to the total. |
| Assess.Files | scripts/assess_payroll_files.py:56-65 | The files found are existing years, at most one per year. |
| Assess.FindFiles | scripts/assess_payroll_files.py:56-65 | The file loop finds exactly those files, in year order. |
| Assess.SumCounts | scripts/assess_payroll_files.py:77-99 | The per-file loop collects the counts that exist, and the total is their sum. |
| Assess.RowCountSummary | scripts/assess_payroll_files.py:56-221 | The counts are the files' counts in year order, at most one per year, and the total is their sum. |
| Assess.SummaryYears | scripts/assess_payroll_files.py:77-99 | A year appears in the summary exactly when it is listed, its file exists, and both of its sheets are found. |
| SenateLines.EscapeSql | scripts/generate_senate_seed.py:6-12 | `None` is `NULL`; otherwise a quote-delimited literal that reads back as the text. |
| SenateLines.DoubleQuotesNoQuote | scripts/generate_senate_seed.py:11 | Text without a quote is unchanged. |
| SenateLines.HeaderOf | scripts/generate_senate_seed.py:26 | A header match yields a number of digits and a stripped name, from a line starting `##`. |
| SenateLines.HeaderOfPieces | scripts/generate_senate_seed.py:26 | A line made of `##`, blanks, digits, a dot, blanks and a name is read as that number and name. |
| SenateLines.HeaderLinePieces | scripts/generate_senate_seed.py:26 | A written header line decomposes into the pieces the pattern matches. |
| SenateLines.HeaderRoundTrip | scripts/generate_senate_seed.py:26-37 | `## N. Name`, for digits `N` and a stripped non-empty name, reads back as `(N, Name)`. |
| SenateLines.EmailAt | scripts/generate_senate_seed.py:67 | A match at the start is an address of the pattern. |
| SenateLines.FindEmail | scripts/generate_senate_seed.py:67 | `re.search` finds an address of the pattern inside the text. |
| SenateLines.TopLevelDomainFound | scripts/generate_senate_seed.py:67 | Backtracking finds a dot past the domain's first character followed by at least two letters. |
| SenateLines.EmailAddressPieces | scripts/generate_senate_seed.py:67 | In an address the local part ends at the `@` and the domain runs to the end. |
| SenateLines.EmailAtAddress | scripts/generate_senate_seed.py:67 | An address of the pattern is matched whole at its start. |
| SenateLines.EmailRoundTrip | scripts/generate_senate_seed.py:64-69 | An address alone on the line is extracted unchanged. |
| SenateLines.KeepSlugChars | scripts/generate_senate_seed.py:99 | The first substitution leaves only letters, digits, blanks and dashes, and adds no capital. |
| SenateLines.DashBlanks | scripts/generate_senate_seed.py:100 | The second substitution leaves no blank. |
| SenateLines.DropLeadingDashes | scripts/generate_senate_seed.py:101 | The leading half of `strip('-')` leaves no leading dash. |
| SenateLines.DropTrailingDashes | scripts/generate_senate_seed.py:101 | The trailing half of `strip('-')` leaves no trailing dash and keeps a first character that is not a dash. |
| SenateLines.Slug | scripts/generate_senate_seed.py:98-101 | A slug is made of `[a-z0-9-]` and neither starts nor ends with a dash. |
| SenateLines.SlugNeedsNoEscape | scripts/generate_senate_seed.py:103-109 | Escaping a slug only quotes it. |
| SenateLines.SlugOfSlugText | scripts/generate_senate_seed.py:98-101 | Slug characters with no dash at either end are their own slug. |
| SenateLines.SlugIdempotent | scripts/generate_senate_seed.py:98-101 | The slug of a slug is itself. |
| SenateSeed.Classify | scripts/generate_senate_seed.py:23-78 | A line is a header exactly when the pattern matches, with digits and a stripped name; a plain line is a kept address line; a found e-mail matches the pattern. |
| SenateSeed.ReadLine | scripts/generate_senate_seed.py:23-78 | One iteration of the reading loop is one step of the reader. |
| SenateSeed.ParseSenators | scripts/generate_senate_seed.py:18-84 | The reading loop and the final save give exactly the senators read from the content. |
| SenateSeed.FinishReading | scripts/generate_senate_seed.py:80-84 | The senator still open is saved with its address lines. |
| SenateSeed.KeysStep | scripts/generate_senate_seed.py:27-46 | A header starts a senator with its number and name, and no other line starts or drops one. |
| SenateSeed.RunKeys | scripts/generate_senate_seed.py:22-84 | The senators started are the header lines' keys, in order. |
| SenateSeed.SenatorsFollowHeaders | scripts/generate_senate_seed.py:22-84 | There is one senator per header line, in header order, with its number and name. |
| SenateSeed.RunWithoutHeaders | scripts/generate_senate_seed.py:48-49 | Before any header, the reader stays as it started. |
| SenateSeed.LinesBeforeFirstHeader | scripts/generate_senate_seed.py:48-49 | The lines before the first header line are ignored. |
| SenateSeed.StepConsistent | scripts/generate_senate_seed.py:27-78 | Every line keeps the reader's invariant: senators well formed, address lines stripped and plain, none collected after a phone. |
| SenateSeed.FinishWellFormed | scripts/generate_senate_seed.py:80-84 | Saving the open senator keeps every senator well formed. |
| SenateSeed.RunConsistent | scripts/generate_senate_seed.py:22-78 | The invariant holds after every line. |
| SenateSeed.SenatorsWellFormed | scripts/generate_senate_seed.py:22-84 | Every senator has a number of digits, a stripped name and, when present, an e-mail of the pattern. |
| SenateSeed.BoldIsNotHeader | scripts/generate_senate_seed.py:26 | A bold label line is never a header. |
| SenateSeed.PhoneKind | scripts/generate_senate_seed.py:58-59 | A Phone line carries the rest of the line, stripped. |
| SenateSeed.PhoneLine | scripts/generate_senate_seed.py:58-63 | A Phone line sets the phone, closes the address, and clears the collected lines. |
| SenateSeed.OfficeKind | scripts/generate_senate_seed.py:72 | An Office line is recognised as such. |
| SenateSeed.OfficeLine | scripts/generate_senate_seed.py:72-74 | An Office line drops the address lines collected so far and changes nothing else. |
| SenateSeed.RoleTitle | scripts/generate_senate_seed.py:141 | The role title is the non-empty title, or `Senator`. |
| SenateSeed.Values | scripts/generate_senate_seed.py:97-109 | The name and title literals read back as the senator's name and role title, and the slug is quoted as it is. |
| SenateSeed.PeopleBlock | scripts/generate_senate_seed.py:111-120 | The people insert of a senator is ten lines. |
| SenateSeed.RoleBlock | scripts/generate_senate_seed.py:141-153 | The role insert of a senator is ten lines. |
| SenateSeed.AppendBlocks | scripts/generate_senate_seed.py:97-120 | The loop appends each senator's block in order. |
| SenateSeed.EmitSql | scripts/generate_senate_seed.py:86-153 | The SQL lines are the document of the senators' values. |
| SenateSeed.GenerateSeed | scripts/generate_senate_seed.py:14-153 | The generated lines are the document of the senators read from the markdown. |
| SenateSeed.DocumentLength | scripts/generate_senate_seed.py:86-153 | The document has 18 fixed lines and 20 per senator. |
| SenateSeed.PeopleBlockAt | scripts/generate_senate_seed.py:97-120 | The k-th senator's people insert is lines `7 + 10k` to `17 + 10k`. |
| SenateSeed.RoleBlockAt | scripts/generate_senate_seed.py:136-153 | The k-th senator's role insert comes after the middle section, at `18 + 10n + 10k`. |
| SenateSeed.SeedOfSenators | scripts/generate_senate_seed.py:86-153 | For every senator the document holds its people block and its role block in their places. |
| SenateSeed.SeedFollowsHeaders | scripts/generate_senate_seed.py:22-153 | The k-th header's number and name are the k-th senator's, whose blocks sit at the k-th places of the seed. |
| SenateSeed.ValuesLineReadsName | scripts/generate_senate_seed.py:112 | The VALUES row starts with the name literal, followed by the other values. |
| SenateSeed.NameReadBack | scripts/generate_senate_seed.py:103-112 | Reading the people insert's VALUES row gives back the senator's name, quotes included. |
| SenateSeed.TitleLineReadsTitle | scripts/generate_senate_seed.py:145 | The title line is two spaces, the title literal, then a comma, so a reader takes the title first. |
| SenateSeed.TitleReadBack | scripts/generate_senate_seed.py:139-145 | Reading the role insert's title line gives back the senator's title, or `Senator` when it has none, quotes included. |
| Text.TrimIdempotent | scripts/import_payroll.py:86 | Stripping twice is stripping once. |
| Text.DoubleQuotesRoundTrip | scripts/generate_senate_seed.py:11 | Doubled quotes, closed by a quote, read back as the original text. |
| Text.JoinSplit | scripts/generate_senate_seed.py:22 | Splitting on a separator and joining with it gives the text back. |
| Text.SortedDistinct | scripts/fy2025_payroll_inspection.py:130 | `sorted(set(s))` is strictly increasing and holds exactly the values of `s`. |
| Text.StrictlySortedDistinct | scripts/fy2025_payroll_inspection.py:130 | A strictly increasing list, such as `sorted(set(s))`, repeats no element. |
| Text.RemoveAllChar | scripts/import_budgets.py:45 | Removing commas gives the other characters in their order (`OtherChars`), so no comma is left. |
| Numbers.IntTextRoundTrip | scripts/import_budgets.py:56 | `int(str(i)) == i`. |
| Numbers.FloatTextRoundTrip | scripts/import_payroll.py:74 | `float(str(x))` has the value of `x`. |
| Numbers.TruncBounds | scripts/import_payroll.py:54 | `int(x)` truncates toward zero: it lies between zero and `x`, less than one away. |
| Collections.LastMapValue | scripts/import_payroll.py:243 | A dict built by assignments holds, for each key, the value of its last assignment. |
| Collections.LastMap | scripts/import_payroll.py:243 | A key is in the dict exactly when some assignment uses it. |
| Collections.LastMapFrom | scripts/import_payroll.py:243 | Every value stored under a key comes from an assignment to that key. |
| Collections.DedupFirstOccurrenceOrder | scripts/import_payroll.py:259 | A dict's keys are ordered by their first assignment. |
| Collections.DedupLength | scripts/import_payroll.py:259 | A dict has as many keys as there are distinct keys assigned. |
| Collections.CountIfExtremes | scripts/import_budgets.py:104-111 | A count is 0 when nothing matches and the length when everything does. |
| Collections.CollectedFrom | scripts/fy2025_payroll_inspection.py:120-121 | A value is collected exactly when some row yields it. |
| Collections.BatchesFlatten | scripts/import_payroll.py:278-279 | The batches, concatenated, are the records. |
| Collections.BatchesSizes | scripts/import_payroll.py:278-279 | Every batch holds between one and 1000 records. |
| Collections.BatchesCount | scripts/import_fy2025_payroll.py:182 | There are `ceil(n / 1000)` batches. |
| Collections.BatchAt | scripts/import_payroll.py:278-279 | Batch `k` is `records[1000k : 1000k + 1000]`, clipped to the end. |
| Store.OutcomeAt | scripts/import_payroll.py:283 | A call beyond the given outcomes fails. |

## Left out

- File and network I/O are parameters or are not modelled. The model
  takes the loaded workbook, CSV rows or markdown text as input. The
  database's answers are a given outcome sequence. Not modelled:
  - opening files with openpyxl, pandas or `csv`;
  - reading `.env` and environment variables;
  - the Supabase client;
  - printing;
  - the agency-list file write (scripts/fy2025_payroll_inspection.py:156-158);
  - the seed file write (scripts/generate_senate_seed.py:155-158).
- The `main` functions of `import_payroll.py` and `import_budgets.py`
  (loops over years and files, existence checks, totals printed) are not
  modelled. They only call the per-file functions that are modelled.
- Floats are exact decimals. The grammar read by `float()` is sign,
  digits and an optional point. Exponents, `inf`, `nan` and underscores
  are not read. Binary rounding is not modelled.
- Numbers.ParseIntLiteral: reads an optional sign and ASCII digits only.
  Python's `int()` also accepts underscores between digits
  (`int("2_025")` is 2025) and any Unicode decimal digit (`int("٢٠")` is
  20). The model gives `None` for both, so, for example, a budget period
  written that way is skipped by the model but kept by
  `import_budgets.py`.
- Cells.IntOfText: inherits the narrower domain of
  Numbers.ParseIntLiteral (no underscores, ASCII digits only).
- Cells.FloatOfText: reads ASCII digits only; Python's `float()` also
  accepts any Unicode decimal digit.
- ImportPayroll.ParseInteger: `int(float("inf"))` raises
  `OverflowError`, which the `except (ValueError, TypeError)` of
  `parse_integer` does not catch. `parse_hr_row` catches it in its
  `except Exception` (scripts/import_payroll.py:182-184) and returns
  `None`, so the source drops that whole HR row and goes on with the file.
  The model does not read `inf`: it returns `None` for that field and
  keeps the row (ImportPayroll.ParseHrData, ImportPayroll.ParseHrRow).
- ImportPayroll.ParseLastHireDate: on `inf` text the same `OverflowError`
  makes `parse_hr_row` drop the whole HR row; the model keeps the row,
  with the stripped text as the last hire date.
- Cells.Cell: has no boolean case. openpyxl returns `bool` for TRUE and
  FALSE cells. Python treats these as the integers 1 and 0
  (`parse_integer(True)` is 1), while their `str()` is `True` or `False`
  (`parse_text(True)` is `"True"`). Such cells are not modelled.
- Case mapping is ASCII only. Unicode case folding is not modelled.
- `str()` of a float is written positionally (`Numbers.FloatText`).
  Python switches to exponent form for magnitudes of 1e16 and above or
  below 1e-4 (`1e+16`, `1e-05`). Those texts are not modelled.
- `\d` in the header pattern of `generate_senate_seed.py` matches any
  Unicode decimal digit in Python. `SenateLines.HeaderOf` accepts ASCII
  digits only.
- pandas is modelled at row level:
  - NaN and `None` are one empty cell;
  - `replace({np.nan: None})` is the identity;
  - dtypes and the `_y` suffix of right-side columns that collide with
    an `_x` name are not modelled;
  - `to_numeric(errors="coerce")` reads text with `float()`.
- `assess_payroll_files.py`: not modelled:
  - file sizes;
  - header and first-three-rows printing;
  - the compensation-rate and total-wage statistics (lines 149-155 and
    169-201, float min/max/sort);
  - the top-20 `Counter.most_common` listing.
- `fy2025_payroll_inspection.py`: not modelled:
  - the header and sample-row printing (lines 58-74);
  - the 80-character preview of the SQL values (lines 153-154).
- Exceptions are modelled as results. `SystemExit` and the pandas cast
  errors become `Err`. A raising database call is an outcome.
- Inspection.Inspect: the ensures bounds the counts and states the shape
  of the agency list. It does not equate `notUnique` with a repeated key;
  UniqueIffNoRepeat states that, for the set-size test the method
  performs.
- ImportFy2025.ImportFy2025: the credentials check of
  scripts/import_fy2025_payroll.py:162-166 is not modelled. The run
  goes on as if the database client were created.
- ImportFy2025.Prepare: the text of a pandas exception is a placeholder.
  The contract states when an exception is raised, not its message.
