# orders_report, modelled in Dafny

Two small command-line scripts read one spreadsheet export each and write its rows as JSON
records:

- `main.py`, the shipment export. It drops empty rows and renames the Russian headers to
  canonical English names. It keeps only the columns whose header was mapped and strips text
  cells. It reads the report's period (`YYYY.MM`) from the start of the file name and adds four
  provenance columns. It converts `shipment_date` to ISO dates and replaces NaN and "NaT" by
  `None`.
- `scripts/orders_report.py`, the orders report. It drops empty rows, renames the headers it
  knows and keeps the others, and strips text cells. It adds two provenance columns. Then it
  converts `date`, builds `container_number` from `individual` + `container`, and splits
  `container_type_and_size` into `container_type` and `container_size`. These three steps run
  in that order inside one `suppress(Exception)` block. Finally it replaces NaN and "NaT" by
  `None`.

The project has six modules:

| file | module | what it models |
|---|---|---|
| `wrappers.dfy` | `Wrappers` | `Option` and `Result` |
| `pytext.dfy` | `PyText` | `str.strip`, `str.split()`, `os.path.basename`, `str(int)` |
| `strptime.dfy` | `Strptime` | `datetime.strptime` for the formats the scripts use; `str(date)` |
| `frames.dfy` | `Frames` | the DataFrame operations the scripts call; a `DataFrame` class for in-place column assignment |
| `shipment_export.dfy` | `ShipmentExport` | `main.py`: class `Export` |
| `orders_report.dfy` | `OrdersReport` | `scripts/orders_report.py`: class `OrdersReport` |

How the model is built:

- The stages that reassign `df` (`dropna`, `rename`, `drop`, `applymap`, `replace`) are functions
  on table values.
- The two stages that mutate the frame (`add_new_columns`, `change_type_and_values`) are methods
  on a `DataFrame` object. Each method's postcondition equates the new content with a
  specification function of the old content.
- `main` is the method `Run`. Its result equals the function `Pipeline`, and the lemmas state the
  properties of `Pipeline`.
- An exception the scripts let escape (the file-name check of `main.py`) is a `Failure` result.
- An exception the scripts suppress leaves the frame as the last completed assignment left it.

Behaviours of the code that a quick reading might miss, and that the model keeps:

- `"40HC"` is one word for `str.split()` (scripts/orders_report.py:50). The two-column
  assignment therefore raises, the exception is suppressed, and no type/size columns are added.
- The `suppress(Exception)` block of the orders report (scripts/orders_report.py:47-50) is
  sequential, not all-or-nothing. If the concatenation raises, `date` stays converted and the
  split is not attempted. If the split raises, `container_number` stays assigned.
- The shipment export drops every column whose header is not in `headers_eng`
  (main.py:102-105). The drop removes `set(original) & set(renamed)`, and an unmapped header
  keeps its name through `rename`, so it is in both sets.
- `str.split(expand=True)` assigns the first word to `container_type` and the second to
  `container_size`, in that order (scripts/orders_report.py:50).

## Model

| member | source | states |
|---|---|---|
| PyText.Strip | main.py:106 | `str.strip()` returns a contiguous slice of its input. Everything cut off is whitespace, and the result neither starts nor ends with whitespace. |
| PyText.StripIdempotent | main.py:106 | Stripping a stripped string changes nothing. |
| PyText.Split | scripts/orders_report.py:50 | Every piece of `str.split()` is non-empty and holds no whitespace. |
| PyText.SplitGapsJoin | scripts/orders_report.py:50 | The pieces of `str.split()`, interleaved with the whitespace runs between them, give back the text; inner runs are non-empty. |
| PyText.SplitInterleave | scripts/orders_report.py:50 | Words interleaved with whitespace runs (non-empty between words) split back into exactly those words. |
| PyText.SplitExactly | scripts/orders_report.py:50 | `s.split()` is a given list exactly when the list is words and `s` is them interleaved with whitespace runs, non-empty between words. |
| PyText.SplitTwo | scripts/orders_report.py:50 | `s.split() == [a, b]` exactly when `s` is optional whitespace, word `a`, whitespace, word `b`, optional whitespace. |
| PyText.SplitHasTwo | scripts/orders_report.py:50 | `s.split()` has two pieces exactly when `s` is two words separated by whitespace. |
| PyText.SplitTwoWords | scripts/orders_report.py:50 | A word, a whitespace run and a word split into exactly those two words. |
| PyText.SplitOneWord | scripts/orders_report.py:50 | A single word such as "40HC" splits into itself alone. |
| PyText.BaseName | main.py:73 | `os.path.basename` returns the suffix of the path after its last '/' and contains no '/'. |
| PyText.BaseNameAfterSlash | main.py:73 | The base name of `dir/name` is `name` when `name` has no '/'. |
| PyText.NatToText | main.py:65 | `str(n)` of a natural number is non-empty decimal digits with no leading zero (except "0"), and reads back as `n`. |
| PyText.IntToText | main.py:65 | `str(i)` is the decimal digits of the absolute value of `i`, with no leading zero except in "0" itself, preceded by '-' exactly when `i` is negative. The digits read back as that absolute value. |
| Strptime.FirstParse | main.py:55-58 | The loop over the formats returns the result of the first format that accepts the text. It returns none exactly when every format refuses. |
| Strptime.Iso | main.py:57 | `str(d.date())` is ten characters: four digits, '-', two digits, '-', two digits. |
| Strptime.IsoOfDate | main.py:57 | `.date()` drops the time of day: date-times on the same calendar day give the same text. |
| Strptime.RoundTrip | main.py:57 | A format reads back what it writes. Every field it mentions comes from the written date-time; the others keep strptime's defaults. |
| Strptime.DateRoundTrip | main.py:42 | "%Y-%m-%d" and "%d.%m.%Y" read a valid date back at midnight. |
| Strptime.DateTimeRoundTrip | main.py:42 | "%Y-%m-%d %H:%M:%S" and "%d.%m.%Y %H:%M:%S" read a valid date-time back unchanged. |
| Strptime.MinutesRoundTrip | scripts/orders_report.py:25 | "%d.%m.%Y %H:%M" reads a valid date-time back with the second set to 0. |
| Strptime.InvalidDateRefused | main.py:57 | strptime raises `ValueError` for a day past the end of its month, such as 31 February. |
| Strptime.DateRefusesTime | main.py:42 | A date-only format refuses text with a time after the date ("unconverted data remains"). |
| Strptime.DateRefusedByTime | scripts/orders_report.py:25 | A format that goes on with a time of day refuses a date alone. |
| Strptime.MinutesRefusedBySeconds | scripts/orders_report.py:25 | "%d.%m.%Y %H:%M:%S" refuses a date-time written without seconds. |
| Strptime.DayFirstRefusedByYearFirst | main.py:42 | Text that starts with a two-digit day is refused by the formats that start with a four-digit year. |
| Strptime.YearFirstRefusedByDayFirst | main.py:42 | Text that starts with a four-digit year is refused by the formats that start with a day. |
| Strptime.FirstTokenRefused | main.py:57 | Text whose leading digit run cannot be the format's first field is refused. |
| Strptime.AllDigitsRefused | main.py:57 | Text made only of digits is refused by every format that has a literal after its first field. |
| Frames.NonEmptyRows | main.py:101 | `dropna(how='all')` keeps exactly the rows that hold a non-NA value, and only those. |
| Frames.DropEmptyRows | main.py:101 | Dropping empty rows keeps the columns, and no row it returns is all NA. |
| Frames.NonEmptyRowsAppend | main.py:101 | Dropping works row by row: two blocks of rows keep their kept rows in order. |
| Frames.NonEmptyRowsIdempotent | main.py:101 | Dropping empty rows twice drops nothing more. |
| Frames.RenameColumns | main.py:103 | `rename(columns=m)` keeps the column count and order. It maps each name in `m` and keeps the others. |
| Frames.RenamedNewNames | main.py:103-105 | A name that rename introduces, and that was not a header before, is the new name of a mapped header. |
| Frames.DropColumns | main.py:105 | `drop(columns=names)` keeps exactly the columns not named, in order, with their cells. |
| Frames.KeptIndexOrder | main.py:105 | The kept columns keep their original relative order. |
| Frames.StripAllCells | main.py:106 | After the strip stage, every text cell is its old text with only leading and trailing whitespace cut off, and it neither starts nor ends with whitespace. Every other cell is unchanged. |
| Frames.StripAllIdempotent | scripts/orders_report.py:86 | Running the strip stage twice gives the same frame as running it once. |
| Frames.ReplaceNullsCells | main.py:110 | After `replace({nan: None, "NaT": None})` no cell is NaN or "NaT". Those cells become `None`, and every other cell is unchanged. |
| Frames.Column | main.py:65 | `df[name]` raises `KeyError` exactly when the name is missing. Otherwise it returns the column's cells. |
| Frames.Assign | main.py:71-74 | `df[name] = values` overwrites the column with that name, or appends a new one, and changes no other cell. |
| Frames.AssignNewScalar | main.py:71 | Assigning a scalar to a new name appends one column that holds that value in every row. |
| Frames.AssignThenColumn | scripts/orders_report.py:48 | An assigned column reads back as the assigned values. |
| Frames.AssignOtherColumn | scripts/orders_report.py:48-50 | Assigning one column leaves every other column reading as before. |
| Frames.DataFrame.Set | scripts/orders_report.py:48 | The in-place assignment replaces the frame's content with the content `Assign` gives. |
| Frames.DataFrame.SetAll | main.py:71 | The in-place assignment of a scalar broadcasts it to every row. |
| ShipmentExport.ConvertFormatDate | main.py:51-58 | The result is none exactly when the three formats all refuse the text. Otherwise it is the ISO date of the first format that accepts it. |
| ShipmentExport.ConvertIso | main.py:42 | An ISO date converts to itself. |
| ShipmentExport.ConvertDayFirst | main.py:42 | A valid `DD.MM.YYYY` date converts to its ISO date. The first format refuses it. |
| ShipmentExport.ConvertDropsTime | main.py:42 | A valid `YYYY-MM-DD HH:MM:SS` converts to its date. The first two formats refuse it. |
| ShipmentExport.ConvertImpossibleDay | main.py:55-58 | A day past the end of its month, written `DD.MM.YYYY`, converts to none. |
| ShipmentExport.ConvertThirtyFirstFebruary | main.py:55-58 | "31.02.2023" converts to none. |
| ShipmentExport.ConvertNeedsLeadingDigit | main.py:55-58 | Text that starts with neither a digit nor a space ("nan", "None", "not-a-date") converts to none. A leading space is not refused outright, because `%d` also accepts a space and one digit 1-9. |
| ShipmentExport.ConvertSpacedDay | main.py:51-58 | " 5.01.2023" converts to "2023-01-05": `%d` reads a space and one digit 1-9. |
| ShipmentExport.ParseSpacedDmy | main.py:42 | "%d.%m.%Y" reads a space and a digit 1-9 as the day, then a one- or two-digit month and a four-digit year. |
| ShipmentExport.ConvertAllDigits | main.py:55-58 | Digits alone, such as `str` of an integer cell, convert to none. |
| ShipmentExport.LeadingMatch | main.py:80 | `re.match(r'\d{2,4}.\d{1,2}', name)` fails exactly when no prefix matches. Otherwise it returns the match the backtracking engine picks: the most leading digits, then the most trailing digits. |
| ShipmentExport.CheckDateInBeginFile | main.py:76-85 | "Date not in file name" is raised exactly when no prefix of the base name matches. A success is a ten-character ISO date. |
| ShipmentExport.CheckDatePeriod | main.py:80-85 | A name starting with `YYYY.M` or `YYYY.MM` (year from 1, month 1-12) gives the first day of that month. |
| ShipmentExport.CheckDateSucceeds | main.py:80-85 | The check succeeds exactly when the base name starts with `YYYY.M` or `YYYY.MM`, year from 1 and month 1-12. |
| ShipmentExport.MatchedPeriod | main.py:81-85 | A match that "%Y.%m.%d" reads once ".01" is appended is a four-digit year from 1, a dot and a month 1-12 of one or two digits. |
| ShipmentExport.CheckDateWrongSeparator | main.py:80-85 | A name starting with "2023-04" matches the pattern, and "%Y.%m.%d" then refuses it with `ValueError`. |
| ShipmentExport.CheckDateExample | main.py:80-85 | Any file `dir/2023.04…` not followed by a further digit is dated "2023-04-01". |
| ShipmentExport.CheckDateShortYear | main.py:85 | A name whose leading run has two or three digits matches, but "%Y" refuses it with `ValueError`. |
| ShipmentExport.CheckDateTwoDigitYear | main.py:85 | A name starting with "23.04" fails with `ValueError`. |
| ShipmentExport.CheckDateLongRun | main.py:80-85 | A name starting with six or more digits matches with no separator, and "%Y" then refuses it. |
| ShipmentExport.CheckDateNoSeparator | main.py:80-85 | A name starting with "20230401" fails with `ValueError`. |
| ShipmentExport.CheckDateNoLeadingDigits | main.py:82-83 | A name with fewer than two leading digits fails with "Date not in file name". |
| ShipmentExport.CheckDateNameLength | main.py:80-85 | A name that passes the check is at least six characters long: four year digits, a dot and a month digit. |
| ShipmentExport.Survivors | main.py:102-105 | A column survives rename-and-drop exactly when its header is mapped, and its English name is not itself an original header. |
| ShipmentExport.RenameAndDrop | main.py:102-105 | The surviving columns keep their cells, under their English names. |
| ShipmentExport.RenameAndDropColumns | main.py:102-105 | A name heads an output column exactly when it is the English name of an original header and was not an original header. No unmapped header survives. |
| ShipmentExport.RenameAndDropOrder | main.py:102-105 | Surviving columns keep their original relative order. |
| ShipmentExport.ConvertCell | main.py:65 | A converted cell is `None` or a ten-character ISO date. It is a date exactly when the cell's `str` converts. |
| ShipmentExport.ConvertCellNonText | main.py:65 | Integer, NaN and `None` cells all become `None`. |
| ShipmentExport.ConvertCellDates | main.py:65 | A date cell in any of the three accepted layouts becomes its ISO date. |
| ShipmentExport.ShipmentDatesOnly | main.py:64-65 | The conversion changes only the cells of a single `shipment_date` column. Every other cell and the columns stay. |
| ShipmentExport.ShipmentDatesAbsent | main.py:64-65 | Without a `shipment_date` column the `KeyError` is suppressed and the frame is unchanged. |
| ShipmentExport.WithProvenanceFresh | main.py:71-74 | The four provenance columns are appended in order. Every row ends with "Нет данных", the period, the base name and the time of the run. |
| ShipmentExport.WithProvenanceKeeps | main.py:71-74 | Every other column keeps its name, position and cells. |
| ShipmentExport.Export.ChangeTypeAndValues | main.py:60-65 | In place, the frame becomes its content with the shipment dates converted. |
| ShipmentExport.Export.AddNewColumns | main.py:67-74 | In place, the frame gets the four provenance columns. The time of the run is a parameter. |
| ShipmentExport.Export.Run | main.py:96-110 | `main` returns what `Pipeline` gives for the loaded table, the input path and the time of the run. |
| ShipmentExport.PipelineFailure | main.py:107 | The script fails exactly when the file-name check fails, and with that check's error. |
| ShipmentExport.ProvenanceIsNew | main.py:103-108 | No column that survives rename and drop is a provenance column. |
| ShipmentExport.PipelineOutput | main.py:100-110 | On success the output has the surviving columns followed by the four provenance columns. It has one row per non-empty input row, each ending with the four provenance values, and no cell is NaN or "NaT". |
| ShipmentExport.LastStages | main.py:108-110 | Date conversion and null replacement keep the provenance columns and cells, and leave no NaN or "NaT" cell. |
| OrdersReport.ConvertFormatDate | scripts/orders_report.py:34-41 | The result is none exactly when the four formats all refuse the text. Otherwise it is the ISO date of the first format that accepts it. |
| OrdersReport.ConvertWithTime | scripts/orders_report.py:25 | A valid `YYYY-MM-DD HH:MM:SS` converts to its date by the first format. |
| OrdersReport.ConvertIsoRefused | scripts/orders_report.py:25 | A plain ISO date `YYYY-MM-DD` converts to none: no format starts with a year and stops after the day. |
| OrdersReport.ConvertDayFirst | scripts/orders_report.py:25 | A valid `DD.MM.YYYY` converts to its ISO date by the second format. |
| OrdersReport.ConvertDayFirstWithTime | scripts/orders_report.py:25 | A valid `DD.MM.YYYY HH:MM:SS` converts to its date by the third format. |
| OrdersReport.ConvertDayFirstMinutes | scripts/orders_report.py:25 | A valid `DD.MM.YYYY HH:MM` converts to its date by the fourth format, after the second and third refuse it. |
| OrdersReport.ConvertImpossibleDay | scripts/orders_report.py:38-41 | A day past the end of its month, written `DD.MM.YYYY`, converts to none. |
| OrdersReport.ConvertNeedsLeadingDigit | scripts/orders_report.py:38-41 | Text that starts with neither a digit nor a space converts to none. A leading space is not refused outright, because `%d` also accepts a space and one digit 1-9. |
| OrdersReport.ConvertAllDigits | scripts/orders_report.py:38-41 | Digits alone convert to none. |
| OrdersReport.ConvertCell | scripts/orders_report.py:48 | A converted cell is `None` or an ISO date. It is a date exactly when the cell's `str` converts. |
| OrdersReport.ConvertCellNonText | scripts/orders_report.py:48 | Integer, NaN and `None` cells all become `None`. |
| OrdersReport.AddColumns | scripts/orders_report.py:49 | Element-wise `+` raises `TypeError` exactly when some row pairs text with an integer. Otherwise two texts are concatenated, two integers summed, and a row with an NA side gives NaN. |
| OrdersReport.AddCellsText | scripts/orders_report.py:49 | Two strings are joined with no separator. A string and an integer cannot be added (`TypeError`). |
| OrdersReport.SplitColumn | scripts/orders_report.py:50 | The two-column assignment succeeds exactly when the column has rows and every cell is text made of two whitespace-separated words. Each row then gets words `a` and `b` with the cell equal to whitespace, `a`, non-empty whitespace, `b`, whitespace. |
| OrdersReport.SplitTwoWordCell | scripts/orders_report.py:50 | "40 HC" gives "40" for `container_type` and "HC" for `container_size`. |
| OrdersReport.SplitOneWordRefused | scripts/orders_report.py:50 | A single word such as "40HC" makes the two-column assignment raise. |
| OrdersReport.ChangedWithoutDate | scripts/orders_report.py:47-48 | Without a single `date` column the block raises at once and nothing changes, even when the other columns are present. |
| OrdersReport.ChangedDatesOnly | scripts/orders_report.py:47-49 | Whenever the concatenation raises, for a missing column or a `TypeError`, `date` is still converted and no column is added. |
| OrdersReport.ConcatStepFails | scripts/orders_report.py:49 | The concatenation raises exactly when `individual` or `container` cannot be selected, or some row pairs text with an integer. |
| OrdersReport.ChangedWithoutOperands | scripts/orders_report.py:47-49 | When `individual` or `container` is missing, `date` is still converted and no column is added. |
| OrdersReport.ChangedAfterTypeError | scripts/orders_report.py:47-49 | When a row pairs text with an integer, `date` is still converted and no column is added. |
| OrdersReport.ChangedWithoutSplit | scripts/orders_report.py:47-50 | When the split raises, `date` is converted and `container_number` holds the sums, appended when it was new; no type/size column is added. |
| OrdersReport.ChangedAllSteps | scripts/orders_report.py:47-50 | When every step succeeds, `date` holds the converted dates and `container_number` the cell-wise sums. `container_type` and `container_size` hold the first and second words. |
| OrdersReport.ChangedColumns | scripts/orders_report.py:47-50 | The block keeps the existing columns in place and can only append `container_number`, `container_type` and `container_size`. |
| OrdersReport.ChangedKeepsColumn | scripts/orders_report.py:47-50 | Every column other than `date` and the three derived ones reads the same after the block. |
| OrdersReport.WithFileColumnsCells | scripts/orders_report.py:52-57 | The two file columns read back as the base name and the time of the run. Every other column is unchanged, and no other column is added. |
| OrdersReport.OrdersReport.ChangeTypeAndValues | scripts/orders_report.py:43-50 | In place, the frame becomes what the sequential block gives. The first assignment that raises ends the block. |
| OrdersReport.OrdersReport.AddNewColumns | scripts/orders_report.py:52-57 | In place, the frame gets the two file columns. The time of the run is a parameter. |
| OrdersReport.OrdersReport.Run | scripts/orders_report.py:79-89 | `main` returns what `Pipeline` gives for the loaded table, the input path and the time of the run. Nothing in it fails. |
| OrdersReport.RenameKeepsColumns | scripts/orders_report.py:85 | Rename keeps every column in order, unmapped headers under their own names. Nothing is dropped. |
| OrdersReport.Prepared | scripts/orders_report.py:84-86 | The frame handed to `add_new_columns` has the renamed columns and one row per non-empty input row. |
| OrdersReport.PipelineColumns | scripts/orders_report.py:83-89 | The output's columns are the renamed input columns, followed only by the file columns and the derived columns. |
| OrdersReport.NoShipmentColumns | scripts/orders_report.py:52-57 | `gtd_number` and `parsed_on` appear in the output exactly when the spreadsheet had them. |
| OrdersReport.PipelineOutput | scripts/orders_report.py:83-89 | The output has one row per non-empty input row and no NaN or "NaT" cell. When the input lacked them, the file columns hold the base name and the time of the run in every row. |
| OrdersReport.ReplaceNullsColumn | scripts/orders_report.py:89 | Null replacement leaves a column of text other than "NaT" unchanged. |

## Left out

- Reading the spreadsheet (`pd.read_excel`, the xlrd engine, `skiprows=1`, `dtype=dict_types`). `Run` takes the loaded table as a parameter. Cells are text, integers, NaN or `None`.
- Writing JSON (`write_to_json`, `to_dict('records')`, `os.path.join`, file I/O) and reading `sys.argv`. `Run` returns the table whose rows would be written.
- `datetime.now()` is a parameter `now`, the already formatted time of the run.
- Timestamp, date and float cells. The model has no floating point, and a cell that pandas parsed as a date is left out. Only the `str` of text, integer, NaN and `None` cells reaches the date conversion.
- strptime's case-insensitive matching, locale-dependent directives and the `%Y` behaviour outside 1-9999 are left out: the formats used hold only digits and punctuation.
- The copy of `check_date_in_begin_file` in `scripts/orders_report.py:59-68` is never called, so it is not modelled separately. `main.py`'s identical copy is.
- `str.split(expand=True)` padding with `None` when rows have different word counts is left out. Any column other than exactly two words in every row, or with no rows, is modelled as the assignment raising.
- Selecting a column label that several columns share returns a frame in pandas. The model treats it as a failed lookup, which the suppressed blocks turn into "no change".
- ShipmentExport.PipelineOutput: stated only for a successful file-name check and a time of run other than "NaT". The failure case is `PipelineFailure`.
- OrdersReport.PipelineOutput: the file-column values are stated only when the input had no columns of those names, and when the base name and time are not "NaT".
- Unicode digits: Python's `\d` in the file-name pattern (main.py:80), strptime's numeric fields (main.py:57, main.py:85, scripts/orders_report.py:40) accept any Unicode decimal digit, such as Arabic-Indic digits. The model's `IsDigit` is ASCII '0'-'9' only. This affects ShipmentExport.LeadingMatch, ShipmentExport.CheckDateInBeginFile, Strptime.Token, Strptime.Parse and both ConvertFormatDate functions.
- PyText.BaseName models POSIX `os.path.basename`, which splits on '/' only (main.py:73, scripts/orders_report.py:56). On Windows `ntpath.basename` also splits on `\` and after a drive letter; that variant is not modelled.
