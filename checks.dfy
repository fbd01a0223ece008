/** What validating one row means: the per-field checks, the messages a row
    contributes to the log, its effect on the status table, and the coercion
    of a row into a processed record. */
module Checks {
  import opened Values
  import opened Text
  import opened Fields
  import opened Errors

  /** `datetime.fromisoformat(value.replace('Z', '+00:00'))`; a value that is
      not a string has no `replace` and fails as well. */
  function TimestampFault(lib: Builtins, v: Value): Option<FieldFault>
  {
    match v
    case Str(s) => if lib.fromIsoFormat(Replace(s, 'Z', "+00:00")) then None else Some(BadTimestamp)
    case _ => Some(BadTimestamp)
  }

  /** `float(value)` must succeed and give a number above zero. */
  function PositiveNumberFault(lib: Builtins, v: Value): Option<FieldFault>
  {
    match AsFloat(lib, v)
    case None => Some(NotNumeric)
    case Some(x) => if x <= 0.0 then Some(NotPositive) else None
  }

  /** `int(float(value))` must succeed, be above zero and equal `float(value)`. */
  function PositiveIntegerFault(lib: Builtins, v: Value): Option<FieldFault>
  {
    match AsFloat(lib, v)
    case None => Some(NotInteger)
    case Some(x) =>
      var n := Trunc(x);
      if n <= 0 || n as real != x then Some(NotPositiveInteger) else None
  }

  predicate IsPositiveWhole(x: real) {
    1.0 <= x && x.Floor as real == x
  }

  /** The integer check accepts exactly the whole numbers from 1 up, reports an
      unparsable value as such, and everything else as not a positive integer.
      In particular a fractional value such as 2.5 or 0.5 is rejected although
      its truncation may be positive. */
  lemma PositiveIntegerFaultMeaning(lib: Builtins, v: Value)
    ensures PositiveIntegerFault(lib, v) == None
        <==> AsFloat(lib, v).Some? && IsPositiveWhole(AsFloat(lib, v).value)
    ensures PositiveIntegerFault(lib, v) == Some(NotInteger) <==> AsFloat(lib, v).None?
    ensures PositiveIntegerFault(lib, v) == Some(NotPositiveInteger)
        <==> AsFloat(lib, v).Some? && !IsPositiveWhole(AsFloat(lib, v).value)
  {
    match AsFloat(lib, v)
    case None =>
    case Some(x) =>
      var n := Trunc(x);
      if IsPositiveWhole(x) {
        assert n == x.Floor;
      }
      if n > 0 && n as real == x {
        assert x.Floor == n;
      }
  }

  /** The check `validate_record` applies to a present value of field `f`. */
  function FaultOf(lib: Builtins, f: Field, v: Value): Option<FieldFault>
  {
    match f
    case Timestamp => TimestampFault(lib, v)
    case ForecastTime => PositiveIntegerFault(lib, v)
    case _ => PositiveNumberFault(lib, v)
  }

  /** The message, if any, that a check with outcome `fault` appends. */
  function FaultLog(f: Field, fault: Option<FieldFault>, row: nat): seq<Error>
  {
    if fault.Some? then [FieldError(f, fault.value, row)] else []
  }

  /** Field `f` is present in `rec` and its value passes the field's check. */
  predicate Passes(lib: Builtins, rec: RawRecord, f: Field) {
    !IsMissing(rec, f) && FaultOf(lib, f, rec[Name(f)]).None?
  }

  /** What checking field `f` of row `row` appends: nothing when the field is
      missing (only the combined message names it), else the check's message. */
  function FieldLog(lib: Builtins, rec: RawRecord, f: Field, row: nat): seq<Error>
  {
    if IsMissing(rec, f) then [] else FaultLog(f, FaultOf(lib, f, rec[Name(f)]), row)
  }

  function FieldLogs(lib: Builtins, rec: RawRecord, row: nat, fs: seq<Field>): seq<Error>
  {
    if fs == [] then [] else FieldLog(lib, rec, fs[0], row) + FieldLogs(lib, rec, row, fs[1..])
  }

  /** The combined missing-field message of a row, when any field is missing. */
  function MissingLog(rec: RawRecord, row: nat): seq<Error>
  {
    if MissingList(rec) == [] then [] else [MissingFields(MissingList(rec), row)]
  }

  /** Everything `validate_record(rec, row)` appends to the log, in order. */
  function RowErrors(lib: Builtins, rec: RawRecord, row: nat): seq<Error>
  {
    MissingLog(rec, row) + FieldLogs(lib, rec, row, RequiredFields)
  }

  /** The row's messages are the missing-field message and then the six field
      checks, one after the other, as the source writes them. */
  lemma RowErrorsUnfold(lib: Builtins, rec: RawRecord, row: nat)
    ensures RowErrors(lib, rec, row)
         == MissingLog(rec, row)
          + FieldLog(lib, rec, Timestamp, row)
          + FieldLog(lib, rec, HistoricalEnergyConsumption, row)
          + FieldLog(lib, rec, ParameterA, row)
          + FieldLog(lib, rec, ParameterB, row)
          + FieldLog(lib, rec, ForecastTime, row)
          + FieldLog(lib, rec, Baseline, row)
  {
    FieldLogsRequired(lib, rec, row);
    Reassociate(MissingLog(rec, row),
                FieldLog(lib, rec, Timestamp, row),
                FieldLog(lib, rec, HistoricalEnergyConsumption, row),
                FieldLog(lib, rec, ParameterA, row),
                FieldLog(lib, rec, ParameterB, row),
                FieldLog(lib, rec, ForecastTime, row),
                FieldLog(lib, rec, Baseline, row));
  }

  lemma FieldLogsRequired(lib: Builtins, rec: RawRecord, row: nat)
    ensures FieldLogs(lib, rec, row, RequiredFields)
         == FieldLog(lib, rec, Timestamp, row)
          + (FieldLog(lib, rec, HistoricalEnergyConsumption, row)
          + (FieldLog(lib, rec, ParameterA, row)
          + (FieldLog(lib, rec, ParameterB, row)
          + (FieldLog(lib, rec, ForecastTime, row)
          + FieldLog(lib, rec, Baseline, row)))))
  {
    assert FieldLogs(lib, rec, row, [Baseline]) == FieldLog(lib, rec, Baseline, row) by {
      assert [Baseline][1..] == [];
    }
    assert FieldLogs(lib, rec, row, [ForecastTime, Baseline])
        == FieldLog(lib, rec, ForecastTime, row) + FieldLogs(lib, rec, row, [Baseline]) by {
      assert [ForecastTime, Baseline][1..] == [Baseline];
    }
    assert FieldLogs(lib, rec, row, [ParameterB, ForecastTime, Baseline])
        == FieldLog(lib, rec, ParameterB, row) + FieldLogs(lib, rec, row, [ForecastTime, Baseline]) by {
      assert [ParameterB, ForecastTime, Baseline][1..] == [ForecastTime, Baseline];
    }
    assert FieldLogs(lib, rec, row, [ParameterA, ParameterB, ForecastTime, Baseline])
        == FieldLog(lib, rec, ParameterA, row) + FieldLogs(lib, rec, row, [ParameterB, ForecastTime, Baseline]) by {
      assert [ParameterA, ParameterB, ForecastTime, Baseline][1..] == [ParameterB, ForecastTime, Baseline];
    }
    assert FieldLogs(lib, rec, row, RequiredFields[1..])
        == FieldLog(lib, rec, HistoricalEnergyConsumption, row)
         + FieldLogs(lib, rec, row, [ParameterA, ParameterB, ForecastTime, Baseline]) by {
      assert RequiredFields[1..][1..] == [ParameterA, ParameterB, ForecastTime, Baseline];
    }
  }

  /** The field messages of a row name present fields of `fs` that fail their
      check, one message for each, in the order of `fs`. */
  lemma FieldLogsShape(lib: Builtins, rec: RawRecord, row: nat, fs: seq<Field>)
    requires IncreasingIndex(fs)
    ensures Ordered(FieldLogs(lib, rec, row, fs))
    ensures forall e :: e in FieldLogs(lib, rec, row, fs) ==>
              e.FieldError? && e.row == row && e.field in fs && Slot(e) >= 1
    ensures forall f, k :: FieldError(f, k, row) in FieldLogs(lib, rec, row, fs)
              <==> f in fs && !IsMissing(rec, f) && FaultOf(lib, f, rec[Name(f)]) == Some(k)
  {
    FieldLogsOrdered(lib, rec, row, fs, -1);
    FieldLogsMembers(lib, rec, row, fs);
  }

  lemma {:induction false} FieldLogsOrdered(lib: Builtins, rec: RawRecord, row: nat, fs: seq<Field>, lo: int)
    requires IncreasingIndex(fs)
    requires forall k :: 0 <= k < |fs| ==> lo < Index(fs[k])
    ensures Ordered(FieldLogs(lib, rec, row, fs))
    ensures forall i :: 0 <= i < |FieldLogs(lib, rec, row, fs)| ==>
              FieldLogs(lib, rec, row, fs)[i].FieldError?
              && FieldLogs(lib, rec, row, fs)[i].row == row
              && lo < Index(FieldLogs(lib, rec, row, fs)[i].field)
  {
    if fs != [] {
      var tail := fs[1..];
      assert forall i :: 0 <= i < |tail| ==> tail[i] == fs[i + 1];
      FieldLogsOrdered(lib, rec, row, tail, Index(fs[0]));
      var head := FieldLog(lib, rec, fs[0], row);
      var rest := FieldLogs(lib, rec, row, tail);
      assert FieldLogs(lib, rec, row, fs) == head + rest;
      assert forall i :: 0 <= i < |head| ==> head[i].FieldError? && head[i].row == row && head[i].field == fs[0];
      OrderedConcat(head, rest);
    }
  }

  lemma {:induction false} FieldLogsMembers(lib: Builtins, rec: RawRecord, row: nat, fs: seq<Field>)
    ensures forall e :: e in FieldLogs(lib, rec, row, fs) ==> e.FieldError? && e.row == row && e.field in fs
    ensures forall f, k :: FieldError(f, k, row) in FieldLogs(lib, rec, row, fs)
              <==> f in fs && !IsMissing(rec, f) && FaultOf(lib, f, rec[Name(f)]) == Some(k)
  {
    if fs != [] {
      var tail := fs[1..];
      FieldLogsMembers(lib, rec, row, tail);
      var head := FieldLog(lib, rec, fs[0], row);
      assert FieldLogs(lib, rec, row, fs) == head + FieldLogs(lib, rec, row, tail);
      assert forall f :: f in fs <==> f == fs[0] || f in tail by {
        assert fs == [fs[0]] + tail;
      }
    }
  }

  /** What one row contributes to the log: every entry has the row number; the
      combined missing-field message comes first and exists exactly when some
      field is missing; there is one message per present field that fails its
      check and no other; and the entries follow the fixed field order. */
  lemma RowErrorsShape(lib: Builtins, rec: RawRecord, row: nat)
    ensures Ordered(RowErrors(lib, rec, row))
    ensures forall e :: e in RowErrors(lib, rec, row) ==> RowOf(e) == row && !e.FormatError?
    ensures MissingFields(MissingList(rec), row) in RowErrors(lib, rec, row) <==> MissingList(rec) != []
    ensures forall e :: e in RowErrors(lib, rec, row) && e.MissingFields? ==>
              e == RowErrors(lib, rec, row)[0] && e.missing == MissingList(rec)
    ensures forall f, k :: FieldError(f, k, row) in RowErrors(lib, rec, row)
              <==> !IsMissing(rec, f) && FaultOf(lib, f, rec[Name(f)]) == Some(k)
  {
    var m := MissingLog(rec, row);
    var fl := FieldLogs(lib, rec, row, RequiredFields);
    RequiredFieldsIncreasing();
    FieldLogsShape(lib, rec, row, RequiredFields);
    EveryFieldRequired();
    forall i, j | 0 <= i < |m| && 0 <= j < |fl| ensures Precedes(m[i], fl[j]) {
      assert fl[j] in fl;
    }
    OrderedConcat(m, fl);
    assert RowErrors(lib, rec, row) == m + fl;
    forall e | e in RowErrors(lib, rec, row) && e.MissingFields?
      ensures e == RowErrors(lib, rec, row)[0] && e.missing == MissingList(rec)
    {
      assert e !in fl;
    }
  }

  /** A row that is complete and whose every field passes its check. */
  predicate RowClean(lib: Builtins, rec: RawRecord) {
    MissingList(rec) == [] && forall f: Field :: Passes(lib, rec, f)
  }

  /** The field checks of `fs` add nothing exactly when each of them adds nothing. */
  lemma {:induction false} FieldLogsEmpty(lib: Builtins, rec: RawRecord, row: nat, fs: seq<Field>)
    ensures FieldLogs(lib, rec, row, fs) == []
        <==> forall i :: 0 <= i < |fs| ==> FieldLog(lib, rec, fs[i], row) == []
  {
    if fs != [] {
      FieldLogsEmpty(lib, rec, row, fs[1..]);
      assert forall i :: 1 <= i < |fs| ==> fs[i] == fs[1..][i - 1];
    }
  }

  /** A row adds nothing to the log exactly when it is clean, whatever its number. */
  lemma RowErrorsEmpty(lib: Builtins, rec: RawRecord, row: nat)
    ensures RowErrors(lib, rec, row) == [] <==> RowClean(lib, rec)
  {
    MissingListMeaning(rec);
    FieldLogsEmpty(lib, rec, row, RequiredFields);
    if RowErrors(lib, rec, row) == [] {
      forall f: Field ensures Passes(lib, rec, f) {
        assert !IsMissing(rec, f) by { assert f !in MissingList(rec); }
        assert FieldLog(lib, rec, RequiredFields[Index(f)], row) == [];
      }
    }
    if RowClean(lib, rec) {
      forall i | 0 <= i < |RequiredFields| ensures FieldLog(lib, rec, RequiredFields[i], row) == [] {
        assert Passes(lib, rec, RequiredFields[i]);
      }
    }
  }

  /** The status table after one row: each field whose value passes its check is
      moved to its passed status; every other entry stays as it was. */
  function MergeRow(lib: Builtins, t: StatusTable, rec: RawRecord): (t': StatusTable)
    ensures t'.Keys == t.Keys
    ensures WellFormedTable(t) ==> WellFormedTable(t')
  {
    map f | f in t :: if Passes(lib, rec, f) then PassedStatus(f) else t[f]
  }

  /** One status update of `validate_record`: field `f` moves to its passed
      status when its value passes its check. */
  function MarkPassed(lib: Builtins, t: StatusTable, rec: RawRecord, f: Field): StatusTable
  {
    if Passes(lib, rec, f) then t[f := PassedStatus(f)] else t
  }

  /** On an entry the table already has, one update changes at most the
      updated field's status, and only to its passed status. */
  lemma MarkPassedAt(lib: Builtins, t: StatusTable, rec: RawRecord, f: Field, g: Field)
    requires f in t && g in t
    ensures MarkPassed(lib, t, rec, f).Keys == t.Keys
    ensures MarkPassed(lib, t, rec, f)[g] == if g == f && Passes(lib, rec, f) then PassedStatus(f) else t[g]
  {
  }

  /** The six updates of `validate_record`, one after the other, amount to the
      merge of the row into a table that has every field. */
  lemma MergeRowInSteps(lib: Builtins, rec: RawRecord, t0: StatusTable, t1: StatusTable, t2: StatusTable,
                        t3: StatusTable, t4: StatusTable, t5: StatusTable, t6: StatusTable)
    requires forall f: Field :: f in t0
    requires t1 == MarkPassed(lib, t0, rec, Timestamp)
    requires t2 == MarkPassed(lib, t1, rec, HistoricalEnergyConsumption)
    requires t3 == MarkPassed(lib, t2, rec, ParameterA)
    requires t4 == MarkPassed(lib, t3, rec, ParameterB)
    requires t5 == MarkPassed(lib, t4, rec, ForecastTime)
    requires t6 == MarkPassed(lib, t5, rec, Baseline)
    ensures t6 == MergeRow(lib, t0, rec)
  {
    forall g: Field ensures t6.Keys == t0.Keys && t6[g] == MergeRow(lib, t0, rec)[g] {
      MarkPassedAt(lib, t0, rec, Timestamp, g);
      MarkPassedAt(lib, t1, rec, HistoricalEnergyConsumption, g);
      MarkPassedAt(lib, t2, rec, ParameterA, g);
      MarkPassedAt(lib, t3, rec, ParameterB, g);
      MarkPassedAt(lib, t4, rec, ForecastTime, g);
      MarkPassedAt(lib, t5, rec, Baseline, g);
    }
  }

  /** The processed record of a complete row: `record["timestamp"]` as is, the
      numbers through `float`, and `forecast_time` through `int(float(...))`;
      `None` when one of those conversions raises. */
  function Coerce(lib: Builtins, rec: RawRecord): Option<ProcessedRecord>
    requires MissingList(rec) == []
  {
    MissingListMeaning(rec);
    assert !IsMissing(rec, Timestamp) && !IsMissing(rec, HistoricalEnergyConsumption)
        && !IsMissing(rec, ParameterA) && !IsMissing(rec, ParameterB)
        && !IsMissing(rec, ForecastTime) && !IsMissing(rec, Baseline)
    by {
      assert Timestamp !in MissingList(rec) && HistoricalEnergyConsumption !in MissingList(rec)
          && ParameterA !in MissingList(rec) && ParameterB !in MissingList(rec)
          && ForecastTime !in MissingList(rec) && Baseline !in MissingList(rec);
    }
    var h := AsFloat(lib, rec[Name(HistoricalEnergyConsumption)]);
    var a := AsFloat(lib, rec[Name(ParameterA)]);
    var b := AsFloat(lib, rec[Name(ParameterB)]);
    var t := AsFloat(lib, rec[Name(ForecastTime)]);
    var z := AsFloat(lib, rec[Name(Baseline)]);
    if h.None? || a.None? || b.None? || t.None? || z.None? then None
    else Some(ProcessedRecord(rec[Name(Timestamp)], h.value, a.value, b.value, Trunc(t.value), z.value))
  }

  /** `validate_record` accepted the row (nothing missing), but converting one
      of its values with `float` raises, which aborts `validate_data`. */
  predicate Crashes(lib: Builtins, rec: RawRecord) {
    MissingList(rec) == [] && Coerce(lib, rec).None?
  }

  /** A record all of whose fields satisfy their rules. */
  predicate Validated(lib: Builtins, r: ProcessedRecord) {
    && TimestampFault(lib, r.timestamp).None?
    && r.historicalEnergyConsumption > 0.0
    && r.parameterA > 0.0
    && r.parameterB > 0.0
    && r.forecastTime > 0
    && r.baseline > 0.0
  }

  /** A clean row converts without raising, into a record whose fields satisfy
      their rules and carry the parsed values; `forecast_time` loses nothing to
      the truncation. */
  lemma CleanRowCoerces(lib: Builtins, rec: RawRecord)
    requires RowClean(lib, rec)
    ensures Coerce(lib, rec).Some? && Validated(lib, Coerce(lib, rec).value)
    ensures Passes(lib, rec, ForecastTime)
         && Some(Coerce(lib, rec).value.forecastTime as real) == AsFloat(lib, rec[Name(ForecastTime)])
    ensures Passes(lib, rec, HistoricalEnergyConsumption)
         && Some(Coerce(lib, rec).value.historicalEnergyConsumption)
         == AsFloat(lib, rec[Name(HistoricalEnergyConsumption)])
  {
    assert Passes(lib, rec, Timestamp) && Passes(lib, rec, HistoricalEnergyConsumption)
        && Passes(lib, rec, ParameterA) && Passes(lib, rec, ParameterB)
        && Passes(lib, rec, ForecastTime) && Passes(lib, rec, Baseline);
    PositiveIntegerFaultMeaning(lib, rec[Name(ForecastTime)]);
  }

  /** A row that makes `validate_data` raise has already logged why: a numeric
      field whose value `float` cannot parse. */
  lemma CrashIsLogged(lib: Builtins, rec: RawRecord, row: nat)
    requires Crashes(lib, rec)
    ensures exists f :: f in RequiredFields && f != Timestamp
              && (FieldError(f, NotNumeric, row) in RowErrors(lib, rec, row)
                  || FieldError(f, NotInteger, row) in RowErrors(lib, rec, row))
  {
    var f := UnparsableField(lib, rec);
    var k := if f == ForecastTime then NotInteger else NotNumeric;
    assert FaultOf(lib, f, rec[Name(f)]) == Some(k);
    RowErrorsShape(lib, rec, row);
    assert FieldError(f, k, row) in RowErrors(lib, rec, row);
    EveryFieldRequired();
  }

  /** The first numeric field of a row that makes the conversion raise. */
  function UnparsableField(lib: Builtins, rec: RawRecord): (f: Field)
    requires Crashes(lib, rec)
    ensures f != Timestamp && !IsMissing(rec, f) && AsFloat(lib, rec[Name(f)]).None?
  {
    MissingListMeaning(rec);
    assert HistoricalEnergyConsumption !in MissingList(rec) && ParameterA !in MissingList(rec)
        && ParameterB !in MissingList(rec) && ForecastTime !in MissingList(rec) && Baseline !in MissingList(rec);
    if AsFloat(lib, rec[Name(HistoricalEnergyConsumption)]).None? then HistoricalEnergyConsumption
    else if AsFloat(lib, rec[Name(ParameterA)]).None? then ParameterA
    else if AsFloat(lib, rec[Name(ParameterB)]).None? then ParameterB
    else if AsFloat(lib, rec[Name(ForecastTime)]).None? then ForecastTime
    else Baseline
  }
}
