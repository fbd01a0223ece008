# Smart grid energy predictor: a verified model

This project models `SmartGridEnergyPredictor`, a class that validates a batch of
smart-grid meter records and then forecasts each record's energy consumption with a
linear model. The batch arrives as JSON text or CSV text.

The object holds four pieces of state, and validation updates them in place:

- an error log;
- a per-field status table (`missing`/`invalid`/`present`/`valid`);
- a record count;
- the records kept for the forecast.

The model keeps this shape. `Predictor.SmartGridEnergyPredictor` is a class with those
fields. Each source method that changes state is a method with `modifies` and `ensures`
clauses; every method is proved against a specification function defined in its own module:

- `Checks`: one row, meaning its messages, its effect on the status table and its
  conversion to a record;
- `Batch`: a whole pass over the rows;
- `Format`: format detection and the two readers;
- `Prediction`: the forecast formulas and the reliability classification;
- `Report`: the validation report text.

Supporting modules:

- `Text`: `strip`, `split`, `replace`, `join` and `str(n)`;
- `Fields`: the six required fields, their fixed order and the status table;
- `Errors`: the log entries, their exact message text and their order;
- `Values`: raw values, the library calls the class relies on, and processed records.

The log is a sequence of `Error` values rather than strings. `Errors.Render` gives the
exact text the source appends for each one. That makes order and content easy to state
and keeps the text available.

Python's library calls are passed to the constructor as a `Builtins` value and are
taken as given:

- `float()` on a string;
- `datetime.fromisoformat`;
- `json.loads`;
- `csv.DictReader`.

A field value is `Str`, `Num` or `Null`. The CSV reader produces only strings, and
`null` for a cell a short row lacks. `json.loads` can also produce booleans, arrays and
objects, which the model cannot represent (see "## Left out").

Behaviour kept as the code has it:

- **Row validity.** `validate_record` returns false only when a field is missing. A
  present field that fails its check logs a message but does not make the row invalid.
  The row is then converted with `float(...)`. When that conversion raises ValueError,
  `validate_data` aborts with the records already cleared. (A non-empty list-valued field would
  raise TypeError there instead; see "## Left out".) The model states this as
  the `ConversionRaised` / `Raised` outcome and proves when it happens:
  - it happens exactly when some accepted row has an unparsable numeric value (`Checks.Crashes`);
  - such a row has always logged an error first (`Checks.CrashIsLogged`, `Batch.CrashLeavesError`).
- **Missing means absent or falsy.** `""`, `0`, `0.0` and `null` count as missing;
  they are never checked as non-positive.
- **Status table is not reset.** `validate_data` clears the log and the records but not
  the status table, so statuses carry over from earlier batches.
- **The forecast needs a successful validation.** `process_data` forecasts only when
  validation succeeded and some record was kept.
- **Division by zero is guarded by validation.** `calculate_predictions` divides by the
  historical consumption, and Python raises ZeroDivisionError when it is zero.
  `CalculatePredictions` models that outcome. `ProcessData` proves it cannot happen
  there, because it only forecasts after a successful validation, and every record then
  has a consumption above zero.

## Model

| member | source | states |
|---|---|---|
| Text.Strip | SmartGridEnergyPredictor-AI.py:123 | the result is a slice of the input with no whitespace at either end, and everything cut away on either side is whitespace |
| Text.StripIdempotent | SmartGridEnergyPredictor-AI.py:123 | stripping twice gives the same text as stripping once |
| Text.Split | SmartGridEnergyPredictor-AI.py:128 | a one-character split yields one more piece than there are separators, and no piece contains the separator |
| Text.JoinSplit | SmartGridEnergyPredictor-AI.py:128 | joining the pieces of a split with the separator gives back the original text |
| Text.Replace | SmartGridEnergyPredictor-AI.py:26 | after `replace('Z', ...)` with a replacement that has no `Z`, no `Z` is left; text without `Z` is unchanged |
| Text.NatToString | SmartGridEnergyPredictor-AI.py:162 | `str(n)` is a non-empty string of decimal digits with no leading zero |
| Text.NatToStringRoundTrip | SmartGridEnergyPredictor-AI.py:162 | reading the digits of `str(n)` back gives `n` |
| Values.Trunc | SmartGridEnergyPredictor-AI.py:47 | `int(x)` truncates toward zero: it is the integer nearest zero within 1 of `x` |
| Fields.MissingAmong | SmartGridEnergyPredictor-AI.py:64 | the list comprehension keeps exactly those fields that are absent or falsy, and is no longer than the input list |
| Fields.MissingListMeaning | SmartGridEnergyPredictor-AI.py:61-64 | a field is listed as missing exactly when it is absent or falsy; the list follows the fixed field order, each field at most once |
| Fields.PassedStatus | SmartGridEnergyPredictor-AI.py:71-93 | the status a passing field moves to (`present` for the timestamp, `valid` otherwise) always differs from its initial status |
| Fields.InitialTableWellFormed | SmartGridEnergyPredictor-AI.py:13-20 | the initial table has every field: `missing` for the timestamp, `invalid` for the other five |
| Checks.PositiveIntegerFaultMeaning | SmartGridEnergyPredictor-AI.py:44-54 | the integer check passes exactly the whole numbers from 1 up; it gives the "integer" message exactly when `float` fails, and otherwise the "positive integer" message |
| Checks.RowErrorsShape | SmartGridEnergyPredictor-AI.py:61-93 | every entry carries the row number; the combined missing-field message exists exactly when a field is missing, comes first, and lists exactly the missing fields; there is a message for a field exactly when it is present and fails its check; order is by field |
| Checks.RowErrorsEmpty | SmartGridEnergyPredictor-AI.py:64-93 | a row logs nothing exactly when no field is missing and every field passes its check |
| Checks.MergeRow | SmartGridEnergyPredictor-AI.py:71-93 | merging a row keeps the table's keys, and keeps every entry at its initial or passed status |
| Checks.MergeRowInSteps | SmartGridEnergyPredictor-AI.py:71-93 | the six status updates applied one after another equal the row merge: a field moves to its passed status exactly when its value passes, and every other field is unchanged |
| Checks.CleanRowCoerces | SmartGridEnergyPredictor-AI.py:146-153 | a clean row converts without raising, into a record whose fields satisfy every rule; `forecast_time` loses nothing to truncation |
| Checks.CrashIsLogged | SmartGridEnergyPredictor-AI.py:146-153 | a row whose conversion raises has already logged a "numeric" or "integer" message for some numeric field |
| Checks.UnparsableField | SmartGridEnergyPredictor-AI.py:146-153 | a row whose conversion raises has a present numeric field that `float` cannot parse |
| Batch.BatchStatus | SmartGridEnergyPredictor-AI.py:143-144 | the table after a pass has the same keys and, when well formed before, is well formed after |
| Batch.BatchRecords | SmartGridEnergyPredictor-AI.py:142-156 | the kept records of a pass are at most as many as its rows |
| Batch.BatchErrorsOrdered | SmartGridEnergyPredictor-AI.py:143-144 | a pass's log is ordered by row, then by field, with the missing-field message first in each row; every entry names an existing 1-based row |
| Batch.BatchErrorsEmpty | SmartGridEnergyPredictor-AI.py:143-157 | a pass logs nothing exactly when every row is clean |
| Batch.CleanBatch | SmartGridEnergyPredictor-AI.py:142-156 | when every row is clean, nothing raises and every row is kept, converted, in its place, as a record satisfying every rule |
| Batch.BatchStatusLaw | SmartGridEnergyPredictor-AI.py:71-93 | a status after a pass is its old value or its passed status; it is the passed status exactly when it already was or some row has a passing value for the field; it never reverts |
| Batch.CrashLeavesError | SmartGridEnergyPredictor-AI.py:143-153 | a pass that raises at some row has a non-empty log at that point |
| Format.DetectFormatRule | SmartGridEnergyPredictor-AI.py:126-128 | JSON exactly when the stripped text starts with `{`; otherwise CSV exactly when it has a comma and either a line break or at least five commas; otherwise neither |
| Format.DetectFormatStripInvariant | SmartGridEnergyPredictor-AI.py:123 | surrounding whitespace never changes the detected format |
| Format.ParseJson | SmartGridEnergyPredictor-AI.py:108-119 | the JSON reader logs at most one format message, and returns no rows when it does |
| Format.ParseCsv | SmartGridEnergyPredictor-AI.py:97-106 | the CSV reader logs at most one format message, and returns no rows when it does |
| Format.DetectAndParse | SmartGridEnergyPredictor-AI.py:121-132 | unrecognised input gives exactly the unknown-format message and no rows; otherwise the result is the chosen reader's on the stripped text |
| Prediction.Forecast | SmartGridEnergyPredictor-AI.py:183-207 | the forecast keeps the record; the relative error is non-negative and equals 100 times the absolute deviation over the absolute consumption; the confidence is at most 100; the recommendation matches the status |
| Prediction.ForecastMeaning | SmartGridEnergyPredictor-AI.py:183-207 | predicted = baseline + hec·a + b·t; confidence = 100 − relative error; the status is highly reliable iff error ≤ 10, moderately iff 10 < error ≤ 20, low iff error > 20; the error is 0 iff the prediction equals the consumption |
| Prediction.ClassifyByRelativeError | SmartGridEnergyPredictor-AI.py:199-207 | when confidence = 100 − error, the three-way decision depends on the error alone, in the bands ≤ 10, (10, 20] and > 20 |
| Prediction.ClassificationBoundaries | SmartGridEnergyPredictor-AI.py:199-207 | exactly 10 is highly reliable, just above 10 is moderate, exactly 20 is moderate, just above 20 is low |
| Prediction.ReferenceRecord | SmartGridEnergyPredictor-AI.py:311-317 | the first sample record gives adjusted 110, time adjustment 10, prediction 170, error 70, confidence 30 and low reliability |
| Errors.Render | SmartGridEnergyPredictor-AI.py:29-131 | every log entry renders as the source's message for its kind, field and row, starting with `ERROR: ` |
| Errors.RenderMentions | SmartGridEnergyPredictor-AI.py:29-131 | a row's message contains ` in row <n>.` for its row; the combined message contains the missing field names joined by `, ` in their order; a field check message other than the timestamp one contains the field name in quotes; a reader's message contains the reader's detail text |
| Report.SummaryShowsOutcome | SmartGridEnergyPredictor-AI.py:168-173 | the summary is the success message exactly when the log is empty; otherwise it starts with a `- ` bullet |
| Predictor.SmartGridEnergyPredictor.constructor | SmartGridEnergyPredictor-AI.py:8-21 | a new predictor uses the library calls it is given, and has an empty log, no records, a count of 0 and the initial status table |
| Predictor.SmartGridEnergyPredictor.ValidateIsoTimestamp | SmartGridEnergyPredictor-AI.py:23-30 | true exactly when the value is a string that `fromisoformat` accepts after `Z` becomes `+00:00`; appends the timestamp message exactly when false |
| Predictor.SmartGridEnergyPredictor.ValidatePositiveNumber | SmartGridEnergyPredictor-AI.py:32-42 | true exactly when `float` succeeds with a value above 0; otherwise appends exactly one message, the "numeric" or the "positive" one |
| Predictor.SmartGridEnergyPredictor.ValidatePositiveInteger | SmartGridEnergyPredictor-AI.py:44-54 | true exactly when `float` succeeds with a whole number from 1 up; otherwise appends exactly one message, the "integer" or the "positive integer" one |
| Predictor.SmartGridEnergyPredictor.ValidateField | SmartGridEnergyPredictor-AI.py:71-93 | one field block appends that field's check message, and moves its status exactly when its value passes |
| Predictor.SmartGridEnergyPredictor.ValidateRecord | SmartGridEnergyPredictor-AI.py:56-95 | returns true exactly when no field is missing; appends exactly the row's messages; merges the row into the status table |
| Predictor.SmartGridEnergyPredictor.ParseJsonData | SmartGridEnergyPredictor-AI.py:108-119 | returns the JSON reader's rows and appends its message |
| Predictor.SmartGridEnergyPredictor.ParseCsvData | SmartGridEnergyPredictor-AI.py:97-106 | returns the CSV reader's rows and appends its message |
| Predictor.SmartGridEnergyPredictor.DetectAndParseData | SmartGridEnergyPredictor-AI.py:121-132 | returns the rows of the detected format and appends the messages the detection and reader produce |
| Predictor.SmartGridEnergyPredictor.ValidateData | SmartGridEnergyPredictor-AI.py:134-157 | counts the parsed rows; completes exactly when no row raises; then the log is the reader's messages plus every row's, the table is the batch merge, the records are the kept converted rows in order, and the result is true exactly when the log is empty; a raise is at the first raising row and leaves no records |
| Predictor.SmartGridEnergyPredictor.ValidateParsed | SmartGridEnergyPredictor-AI.py:142-156 | the row loop, numbering from 1, leaves the pass described for `ValidateData`; the loop invariant is the pass over the first `i` rows |
| Predictor.SmartGridEnergyPredictor.GenerateValidationReport | SmartGridEnergyPredictor-AI.py:159-175 | the report consists of the header, the record count, one status line per field in the fixed order, then the success message or one `- ` line per logged message in order |
| Predictor.SmartGridEnergyPredictor.CalculatePredictions | SmartGridEnergyPredictor-AI.py:177-220 | with no zero consumption, returns the forecast of every record in order; otherwise ZeroDivisionError at the first record with zero consumption |
| Predictor.SmartGridEnergyPredictor.ProcessData | SmartGridEnergyPredictor-AI.py:289-302 | leaves the state that `validate_data` leaves for the payload: the row count, and the log, table and records of the completed or raised pass. It raises exactly when some accepted row cannot be converted, naming the first such row; otherwise it returns the report of that state, plus the forecast exactly when the log is empty and a record was kept. On success every row was kept and every record satisfies all field rules |
| Predictor.SmartGridEnergyPredictor.ReportAndForecast | SmartGridEnergyPredictor-AI.py:293-300 | after a validation with outcome `success`, returns the report and, exactly when `success` holds and records exist, the forecasts of all records, which then cannot divide by zero |
| Predictor.SuccessfulPass | SmartGridEnergyPredictor-AI.py:143-157 | a pass that ends with an empty log raised nowhere and kept every row, each as a record satisfying every rule |
| Predictor.PassAdvance | SmartGridEnergyPredictor-AI.py:143-154 | validating one more row that does not raise extends the pass over the first `i` rows to `i + 1` rows |
| Predictor.RaisedPass | SmartGridEnergyPredictor-AI.py:146-153 | a row that raises, after none earlier did, ends the pass as raised at that row |
| Predictor.CompletedPass | SmartGridEnergyPredictor-AI.py:156-157 | a pass over every row with none raising completes, and its result is true exactly when the log is empty |

## Left out

- Floating point: values are exact reals, so the IEEE-754 behaviour of `float`, including `inf` and `nan`, is not modelled. The `OverflowError` that `int(float('inf'))` would raise is not modelled either.
- `round(..., 2)` in `calculate_predictions` is left out. It affects only how results are shown; the forecast fields hold the exact real values.
- `generate_forecast_report` and its text layout are left out. They only format numbers. `ProcessData` returns the forecasts as values, not the report text.
- The `"\n\n"` separator between the two reports in `process_data` is left out.
- The `print` in `process_data` and the `main` demo are console I/O.
- The library calls are parameters of the model, not working code: `float` on strings, `datetime.fromisoformat`, `json.loads` and `csv.DictReader`. Their error messages are opaque strings.
- JSON booleans, arrays and objects as field values are not representable.
  - `true` behaves like `Num(1.0)`: `float(True)` is 1.0, so it passes every numeric check.
  - `false` behaves like `Null`: it is falsy, so it counts as missing.
  - A non-empty array or object fails its check. In a numeric field it fails like a `Str` that `float` cannot parse. In the timestamp field it fails like a `Num`, because it has no `replace`.
  - An empty array or object is falsy, so it counts as missing.
  - One difference: in the conversion of `validate_data`, a non-empty array or object raises TypeError rather than ValueError. The model's raised outcome does not name the exception type.
- A `records` entry that is not an object is not representable, because a row is always a map.
  - A number, boolean or `null` entry makes the missing-field test raise TypeError.
  - So does a string or list entry that contains a field name, because looking that name up then indexes the string or list.
  - Any other string or list entry behaves like an empty object, `map[]`: all six fields count as missing, giving one message and no raise.
- Other exceptions the source does not catch are not modelled. The modelled ones are the conversion raise in `validate_data` and the ZeroDivisionError of `calculate_predictions`.
- Keys of a record beyond the six fields play no part in the model.
- The `validation_summary` dictionary is split into the `totalRecords` and `fieldsStatus` fields.
- `ValidateField`, `ValidateParsed` and `ReportAndForecast` are helper methods that the source writes inline; each is a block of the method that calls it.
- The log is a sequence of structured entries, not of strings; `Errors.Render` gives each entry's message text.
