/** The predictor object: an error log and a status table that validation
    updates in place, the records it keeps, and the pipeline that validates a
    payload and forecasts its records. */
module Predictor {
  import opened Values
  import opened Text
  import opened Fields
  import opened Errors
  import opened Checks
  import opened Batch
  import opened Format
  import opened Prediction
  import opened Report

  /** How `validate_data` ends: it returns whether the log is empty, or the
      `float(...)` conversion of the record of row `row` raises ValueError. */
  datatype ValidationOutcome = Completed(success: bool) | ConversionRaised(row: nat)

  /** What `process_data` gives back: the validation report and, when there is
      one, the forecast for each kept record (whose text layout is not part of
      this model); or the row whose conversion raised. */
  datatype ProcessOutput =
    | Reports(validationReport: string, forecast: Option<seq<ForecastResult>>)
    | Raised(row: nat)

  /** What `calculate_predictions` gives back: the forecasts, or the position
      (from 0) of the record whose division raised ZeroDivisionError. */
  datatype Predictions = Predicted(results: seq<ForecastResult>) | DivisionRaised(index: nat)

  class SmartGridEnergyPredictor {
    /** The library behaviour the object relies on (`float`, `fromisoformat`, the readers). */
    const lib: Builtins
    var records: seq<ProcessedRecord>
    var validationErrors: seq<Error>
    var totalRecords: nat
    var fieldsStatus: StatusTable

    ghost predicate Valid()
      reads this
    {
      WellFormedTable(fieldsStatus)
    }

    constructor (builtins: Builtins)
      ensures Valid()
      ensures lib == builtins
      ensures records == [] && validationErrors == [] && totalRecords == 0
      ensures fieldsStatus == InitialStatusTable
    {
      lib := builtins;
      records := [];
      validationErrors := [];
      totalRecords := 0;
      fieldsStatus := InitialStatusTable;
      InitialTableWellFormed();
    }

    /** `validate_iso_timestamp`: one message when the value is not an ISO-8601
        date-time, none otherwise. */
    method ValidateIsoTimestamp(v: Value, row: nat) returns (ok: bool)
      modifies this`validationErrors
      ensures ok <==> TimestampFault(lib, v).None?
      ensures ok <==> v.Str? && lib.fromIsoFormat(Replace(v.s, 'Z', "+00:00"))
      ensures validationErrors == old(validationErrors) + FaultLog(Timestamp, TimestampFault(lib, v), row)
    {
      match v {
        case Str(s) => ok := lib.fromIsoFormat(Replace(s, 'Z', "+00:00"));
        case _ => ok := false;
      }
      if !ok {
        validationErrors := validationErrors + [FieldError(Timestamp, BadTimestamp, row)];
      }
    }

    /** `validate_positive_number`: a "numeric" message when `float` fails, a
        "positive" message when the number is not above zero, none otherwise. */
    method ValidatePositiveNumber(v: Value, field: Field, row: nat) returns (ok: bool)
      modifies this`validationErrors
      ensures ok <==> AsFloat(lib, v).Some? && AsFloat(lib, v).value > 0.0
      ensures ok <==> PositiveNumberFault(lib, v).None?
      ensures validationErrors == old(validationErrors) + FaultLog(field, PositiveNumberFault(lib, v), row)
      ensures |validationErrors| == |old(validationErrors)| + (if ok then 0 else 1)
    {
      var x := AsFloat(lib, v);
      if x.None? {
        validationErrors := validationErrors + [FieldError(field, NotNumeric, row)];
        ok := false;
      } else if x.value <= 0.0 {
        validationErrors := validationErrors + [FieldError(field, NotPositive, row)];
        ok := false;
      } else {
        ok := true;
      }
    }

    /** `validate_positive_integer`: an "integer" message when `float` fails, a
        "positive integer" message when the number is not a whole number from 1
        up, none otherwise. */
    method ValidatePositiveInteger(v: Value, field: Field, row: nat) returns (ok: bool)
      modifies this`validationErrors
      ensures ok <==> AsFloat(lib, v).Some? && IsPositiveWhole(AsFloat(lib, v).value)
      ensures ok <==> PositiveIntegerFault(lib, v).None?
      ensures validationErrors == old(validationErrors) + FaultLog(field, PositiveIntegerFault(lib, v), row)
      ensures |validationErrors| == |old(validationErrors)| + (if ok then 0 else 1)
    {
      PositiveIntegerFaultMeaning(lib, v);
      var x := AsFloat(lib, v);
      if x.None? {
        validationErrors := validationErrors + [FieldError(field, NotInteger, row)];
        ok := false;
      } else {
        var n := Trunc(x.value);
        if n <= 0 || n as real != x.value {
          validationErrors := validationErrors + [FieldError(field, NotPositiveInteger, row)];
          ok := false;
        } else {
          ok := true;
        }
      }
    }

    /** One of the six field blocks of `validate_record`: when the field is
        present, run its validator and, when that passes, set its status. */
    method ValidateField(rec: RawRecord, f: Field, row: nat)
      modifies this`validationErrors, this`fieldsStatus
      ensures validationErrors == old(validationErrors) + FieldLog(lib, rec, f, row)
      ensures fieldsStatus == MarkPassed(lib, old(fieldsStatus), rec, f)
    {
      if Name(f) in rec && !Falsy(rec[Name(f)]) {
        var ok: bool;
        match f {
          case Timestamp => ok := ValidateIsoTimestamp(rec[Name(f)], row);
          case ForecastTime => ok := ValidatePositiveInteger(rec[Name(f)], f, row);
          case _ => ok := ValidatePositiveNumber(rec[Name(f)], f, row);
        }
        if ok {
          fieldsStatus := fieldsStatus[f := if f == Timestamp then Present else Status.Valid];
        }
      }
    }

    /** `validate_record`: logs the row's messages, moves the status of each
        passing field, and returns true exactly when no field is missing; a
        present field that fails its check does not make the result false. */
    method ValidateRecord(rec: RawRecord, row: nat) returns (validRecord: bool)
      requires Valid()
      modifies this`validationErrors, this`fieldsStatus
      ensures Valid()
      ensures validRecord <==> MissingList(rec) == []
      ensures validationErrors == old(validationErrors) + RowErrors(lib, rec, row)
      ensures fieldsStatus == MergeRow(lib, old(fieldsStatus), rec)
    {
      validRecord := true;
      var missing := MissingList(rec);
      if missing != [] {
        validationErrors := validationErrors + [MissingFields(missing, row)];
        validRecord := false;
      }
      ghost var e0, t0 := validationErrors, fieldsStatus;
      ValidateField(rec, Timestamp, row);
      ghost var e1, t1 := validationErrors, fieldsStatus;
      ValidateField(rec, HistoricalEnergyConsumption, row);
      ghost var e2, t2 := validationErrors, fieldsStatus;
      ValidateField(rec, ParameterA, row);
      ghost var e3, t3 := validationErrors, fieldsStatus;
      ValidateField(rec, ParameterB, row);
      ghost var e4, t4 := validationErrors, fieldsStatus;
      ValidateField(rec, ForecastTime, row);
      ghost var e5, t5 := validationErrors, fieldsStatus;
      ValidateField(rec, Baseline, row);
      MergeRowInSteps(lib, rec, t0, t1, t2, t3, t4, t5, fieldsStatus);
      RowErrorsUnfold(lib, rec, row);
      AppendChain(old(validationErrors), e0, e1, e2, e3, e4, e5, validationErrors,
                  MissingLog(rec, row),
                  FieldLog(lib, rec, Timestamp, row),
                  FieldLog(lib, rec, HistoricalEnergyConsumption, row),
                  FieldLog(lib, rec, ParameterA, row),
                  FieldLog(lib, rec, ParameterB, row),
                  FieldLog(lib, rec, ForecastTime, row),
                  FieldLog(lib, rec, Baseline, row));
    }

    /** `parse_json_data`: the `records` list, or one message and no rows. */
    method ParseJsonData(data: string) returns (rows: seq<RawRecord>)
      modifies this`validationErrors
      ensures rows == ParseJson(lib, data).rows
      ensures validationErrors == old(validationErrors) + ParseJson(lib, data).log
    {
      match lib.loadJson(data) {
        case JsonObject(Some(rs)) =>
          rows := rs;
        case JsonObject(None) =>
          validationErrors := validationErrors + [FormatError(NoRecordsArray)];
          rows := [];
        case JsonDecodeError(detail) =>
          validationErrors := validationErrors + [FormatError(BadJson(detail))];
          rows := [];
      }
    }

    /** `parse_csv_data`: the rows read from the lines of the stripped text, or
        one message and no rows. */
    method ParseCsvData(data: string) returns (rows: seq<RawRecord>)
      modifies this`validationErrors
      ensures rows == ParseCsv(lib, data).rows
      ensures validationErrors == old(validationErrors) + ParseCsv(lib, data).log
    {
      var lines := Split(Strip(data), '\n');
      match lib.readCsv(lines) {
        case CsvRows(rs) =>
          rows := rs;
        case CsvError(detail) =>
          validationErrors := validationErrors + [FormatError(BadCsv(detail))];
          rows := [];
      }
    }

    /** `detect_and_parse_data`: the JSON reader, the CSV reader, or one message
        and no rows, chosen on the stripped text. */
    method DetectAndParseData(data: string) returns (rows: seq<RawRecord>)
      modifies this`validationErrors
      ensures rows == DetectAndParse(lib, data).rows
      ensures validationErrors == old(validationErrors) + DetectAndParse(lib, data).log
    {
      var d := Strip(data);
      match DetectFormat(data) {
        case Json =>
          rows := ParseJsonData(d);
        case Csv =>
          rows := ParseCsvData(d);
        case Unrecognised =>
          validationErrors := validationErrors + [FormatError(UnknownFormat)];
          rows := [];
      }
    }

    /** `validate_data`: clears the log and the records (not the status table),
        reads the payload, counts its rows, validates them in order and keeps
        the converted rows `validate_record` accepts; the result is whether the
        log ended up empty. When converting an accepted row raises, the pass
        stops there with the records still cleared. */
    method ValidateData(data: string) returns (outcome: ValidationOutcome)
      requires Valid()
      modifies this`validationErrors, this`records, this`totalRecords, this`fieldsStatus
      ensures Valid()
      ensures totalRecords == |DetectAndParse(lib, data).rows|
      ensures PassOutcome(lib, outcome, old(fieldsStatus), DetectAndParse(lib, data),
                          validationErrors, fieldsStatus, records)
      ensures outcome.ConversionRaised? ==> records == []
    {
      validationErrors := [];
      records := [];
      var parsed := DetectAndParseData(data);
      totalRecords := |parsed|;
      outcome := ValidateParsed(parsed);
    }

    /** The loop of `validate_data` over the parsed rows, numbered from 1. */
    method ValidateParsed(parsed: seq<RawRecord>) returns (outcome: ValidationOutcome)
      requires Valid()
      modifies this`validationErrors, this`records, this`fieldsStatus
      ensures Valid()
      ensures PassOutcome(lib, outcome, old(fieldsStatus), Parsed(parsed, old(validationErrors)),
                          validationErrors, fieldsStatus, records)
      ensures outcome.ConversionRaised? ==> records == old(records)
    {
      ghost var log0 := validationErrors;
      ghost var t0 := fieldsStatus;
      var validRecords: seq<ProcessedRecord> := [];
      var i := 0;
      assert parsed[..0] == [];
      while i < |parsed|
        invariant Valid()
        invariant records == old(records)
        invariant PassSoFar(lib, t0, log0, parsed, i, validationErrors, fieldsStatus, validRecords)
      {
        var rec := parsed[i];
        ghost var log, t, rs := validationErrors, fieldsStatus, validRecords;
        var accepted := ValidateRecord(rec, i + 1);
        if accepted {
          var processed := Coerce(lib, rec);
          if processed.None? {
            RaisedPass(lib, t0, log0, parsed, i, log, t, rs, validationErrors, fieldsStatus, records);
            outcome := ConversionRaised(i + 1);
            return;
          }
          validRecords := validRecords + [processed.value];
        }
        PassAdvance(lib, t0, log0, parsed, i, log, t, rs, validationErrors, fieldsStatus, validRecords);
        i := i + 1;
      }
      records := validRecords;
      CompletedPass(lib, t0, log0, parsed, validationErrors, fieldsStatus, records);
      outcome := Completed(|validationErrors| == 0);
    }

    /** `generate_validation_report`. */
    method GenerateValidationReport() returns (report: string)
      requires Valid()
      ensures report == ValidationReportText(totalRecords, fieldsStatus, validationErrors)
    {
      report := "# Smart Grid Data Validation Report:\n";
      report := report + TotalLine(totalRecords);
      report := report + "## Required Fields Check:\n";
      ghost var start := report;
      for k := 0 to |RequiredFields|
        invariant report == start + StatusLines(fieldsStatus, RequiredFields[..k])
      {
        StatusLinesStep(fieldsStatus, RequiredFields, k);
        AppendAssoc(start, StatusLines(fieldsStatus, RequiredFields[..k]), StatusLine(fieldsStatus, RequiredFields[k]));
        report := report + StatusLine(fieldsStatus, RequiredFields[k]);
      }
      assert RequiredFields[..|RequiredFields|] == RequiredFields;
      report := report + "\n# Validation Summary:\n";
      assert report == ReportHead(totalRecords, fieldsStatus);
      if |validationErrors| == 0 {
        report := report + SuccessMessage;
      } else {
        ghost var head := report;
        for k := 0 to |validationErrors|
          invariant report == head + ErrorLines(validationErrors[..k])
        {
          ErrorLinesStep(validationErrors, k);
          AppendAssoc(head, ErrorLines(validationErrors[..k]), ErrorLine(validationErrors[k]));
          report := report + ErrorLine(validationErrors[k]);
        }
        assert validationErrors[..|validationErrors|] == validationErrors;
      }
    }

    /** `calculate_predictions`: the forecast of every kept record, in order;
        the division by the historical consumption raises ZeroDivisionError at
        the first record where that consumption is zero. */
    method CalculatePredictions() returns (p: Predictions)
      ensures p.Predicted? <==> forall i :: 0 <= i < |records| ==> records[i].historicalEnergyConsumption != 0.0
      ensures p.Predicted? ==>
                |p.results| == |records|
                && forall i :: 0 <= i < |records| ==> p.results[i] == Forecast(records[i])
      ensures p.DivisionRaised? ==>
                p.index < |records| && records[p.index].historicalEnergyConsumption == 0.0
                && forall i :: 0 <= i < p.index ==> records[i].historicalEnergyConsumption != 0.0
    {
      var results: seq<ForecastResult> := [];
      for k := 0 to |records|
        invariant |results| == k
        invariant forall i :: 0 <= i < k ==> records[i].historicalEnergyConsumption != 0.0
        invariant forall i :: 0 <= i < k ==> results[i] == Forecast(records[i])
      {
        if records[k].historicalEnergyConsumption == 0.0 {
          return DivisionRaised(k);
        }
        results := results + [Forecast(records[k])];
      }
      p := Predicted(results);
    }

    /** `process_data`: validates the payload; unless a conversion raises, it
        returns the validation report, followed by the forecast exactly when the
        log is empty and some record was kept, and every record the forecast
        covers then satisfies all field rules. */
    method ProcessData(data: string) returns (out: ProcessOutput)
      requires Valid()
      modifies this`validationErrors, this`records, this`totalRecords, this`fieldsStatus
      ensures Valid()
      ensures totalRecords == |DetectAndParse(lib, data).rows|
      ensures PassOutcome(lib, if out.Raised? then ConversionRaised(out.row) else Completed(validationErrors == []),
                          old(fieldsStatus), DetectAndParse(lib, data), validationErrors, fieldsStatus, records)
      ensures out.Raised? <==> !NoCrash(lib, DetectAndParse(lib, data).rows)
      ensures out.Raised? ==>
                1 <= out.row <= |DetectAndParse(lib, data).rows|
                && Crashes(lib, DetectAndParse(lib, data).rows[out.row - 1])
                && records == []
      ensures out.Reports? ==> Answered(out, validationErrors == [])
      ensures out.Reports? && validationErrors == [] ==>
                |records| == totalRecords && forall i :: 0 <= i < |records| ==> Validated(lib, records[i])
    {
      var outcome := ValidateData(data);
      if outcome.ConversionRaised? {
        out := Raised(outcome.row);
        return;
      }
      if outcome.success {
        SuccessfulPass(lib, DetectAndParse(lib, data).log, DetectAndParse(lib, data).rows);
      }
      out := ReportAndForecast(outcome.success);
    }

    /** `out` answers a validation with outcome `success`: it holds the report
        of the current state and, exactly when the validation succeeded and a
        record was kept, the forecast of every record in order. */
    ghost predicate Answered(out: ProcessOutput, success: bool)
      requires Valid()
      reads this
    {
      && out.Reports?
      && out.validationReport == ValidationReportText(totalRecords, fieldsStatus, validationErrors)
      && (out.forecast.Some? <==> success && records != [])
      && (out.forecast.Some? ==>
            |out.forecast.value| == |records|
            && forall i :: 0 <= i < |records| ==>
                 records[i].historicalEnergyConsumption > 0.0 && out.forecast.value[i] == Forecast(records[i]))
    }

    /** The branches of `process_data` after `validate_data` returned `success`. */
    method ReportAndForecast(success: bool) returns (out: ProcessOutput)
      requires Valid()
      requires success ==> forall i :: 0 <= i < |records| ==> Validated(lib, records[i])
      ensures Answered(out, success)
    {
      var validationReport := GenerateValidationReport();
      if success && |records| > 0 {
        var predictions := CalculatePredictions();
        assert predictions.Predicted?;
        out := Reports(validationReport, Some(predictions.results));
      } else {
        out := Reports(validationReport, None);
      }
    }
  }

  /** A pass that ends with an empty log raised nowhere and kept every row, as
      a record satisfying every field rule. */
  lemma SuccessfulPass(lib: Builtins, log: seq<Error>, rows: seq<RawRecord>)
    requires log + BatchErrors(lib, rows) == []
    ensures NoCrash(lib, rows)
    ensures |BatchRecords(lib, rows)| == |rows|
    ensures forall i :: 0 <= i < |rows| ==> Validated(lib, BatchRecords(lib, rows)[i])
  {
    assert BatchErrors(lib, rows) == [] by {
      assert |log + BatchErrors(lib, rows)| == |log| + |BatchErrors(lib, rows)|;
    }
    BatchErrorsEmpty(lib, rows);
    CleanBatch(lib, rows);
  }

  /** What a `validate_data` pass over the reader's result `p` leaves behind,
      starting from the status table `t`: the log `log`, the table `t'` and the
      kept records `rs`. A pass completes exactly when no row raises; it then
      logs the reader's messages and those of every row, merges every row into
      the table and keeps the converted accepted rows, and succeeds exactly when
      the log is empty. A pass that raises at row `n` has validated rows 1 to
      `n`, and row `n` is the first that raises. */
  ghost predicate PassOutcome(lib: Builtins, outcome: ValidationOutcome, t: StatusTable, p: Parsed,
                              log: seq<Error>, t': StatusTable, rs: seq<ProcessedRecord>)
  {
    && (outcome.Completed? <==> NoCrash(lib, p.rows))
    && (outcome.Completed? ==>
          && log == p.log + BatchErrors(lib, p.rows)
          && t' == BatchStatus(lib, t, p.rows)
          && rs == BatchRecords(lib, p.rows)
          && (outcome.success <==> log == []))
    && (outcome.ConversionRaised? ==>
          && 1 <= outcome.row <= |p.rows|
          && NoCrash(lib, p.rows[..outcome.row - 1])
          && Crashes(lib, p.rows[outcome.row - 1])
          && log == p.log + BatchErrors(lib, p.rows[..outcome.row])
          && t' == BatchStatus(lib, t, p.rows[..outcome.row]))
  }

  /** The first `i` rows of `rows` have been validated, starting from the log
      `log` and the table `t`: none raised, and the log, the table and the kept
      records are `log'`, `t'` and `rs`. */
  ghost predicate PassSoFar(lib: Builtins, t: StatusTable, log: seq<Error>, rows: seq<RawRecord>, i: nat,
                            log': seq<Error>, t': StatusTable, rs: seq<ProcessedRecord>)
  {
    && i <= |rows|
    && NoCrash(lib, rows[..i])
    && log' == log + BatchErrors(lib, rows[..i])
    && t' == BatchStatus(lib, t, rows[..i])
    && rs == BatchRecords(lib, rows[..i])
  }

  /** Validating one more row that does not raise extends the pass by that row. */
  lemma PassAdvance(lib: Builtins, t: StatusTable, log: seq<Error>, rows: seq<RawRecord>, i: nat,
                    log1: seq<Error>, t1: StatusTable, rs1: seq<ProcessedRecord>,
                    log2: seq<Error>, t2: StatusTable, rs2: seq<ProcessedRecord>)
    requires i < |rows| && PassSoFar(lib, t, log, rows, i, log1, t1, rs1)
    requires log2 == log1 + RowErrors(lib, rows[i], i + 1)
    requires t2 == MergeRow(lib, t1, rows[i])
    requires MissingList(rows[i]) == [] ==> Coerce(lib, rows[i]).Some? && rs2 == rs1 + [Coerce(lib, rows[i]).value]
    requires MissingList(rows[i]) != [] ==> rs2 == rs1
    ensures PassSoFar(lib, t, log, rows, i + 1, log2, t2, rs2)
  {
    PassStep(lib, t, rows, i);
    AppendAssoc(log, BatchErrors(lib, rows[..i]), RowErrors(lib, rows[i], i + 1));
  }

  /** A pass that reaches row `i + 1` with no earlier row raising, and raises
      there, ends as `ConversionRaised(i + 1)`. */
  lemma RaisedPass(lib: Builtins, t: StatusTable, log: seq<Error>, rows: seq<RawRecord>, i: nat,
                   log1: seq<Error>, t1: StatusTable, rs1: seq<ProcessedRecord>,
                   log2: seq<Error>, t2: StatusTable, rs: seq<ProcessedRecord>)
    requires i < |rows| && PassSoFar(lib, t, log, rows, i, log1, t1, rs1)
    requires log2 == log1 + RowErrors(lib, rows[i], i + 1)
    requires t2 == MergeRow(lib, t1, rows[i])
    requires Crashes(lib, rows[i])
    ensures PassOutcome(lib, ConversionRaised(i + 1), t, Parsed(rows, log), log2, t2, rs)
  {
    PassStep(lib, t, rows, i);
    AppendAssoc(log, BatchErrors(lib, rows[..i]), RowErrors(lib, rows[i], i + 1));
    assert !NoCrash(lib, rows) by { assert !Crashes(lib, rows[i]) ==> false; }
  }

  /** A pass over all rows with none raising ends as `Completed`. */
  lemma CompletedPass(lib: Builtins, t: StatusTable, log: seq<Error>, rows: seq<RawRecord>,
                      log1: seq<Error>, t1: StatusTable, rs1: seq<ProcessedRecord>)
    requires PassSoFar(lib, t, log, rows, |rows|, log1, t1, rs1)
    ensures PassOutcome(lib, Completed(|log1| == 0), t, Parsed(rows, log), log1, t1, rs1)
  {
    assert rows[..|rows|] == rows;
  }

}
