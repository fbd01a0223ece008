/** The six required fields, their fixed order, and the per-field status table. */
module Fields {
  import opened Values

  datatype Field = Timestamp | HistoricalEnergyConsumption | ParameterA | ParameterB | ForecastTime | Baseline

  /** The key under which a field appears in a raw record. */
  function Name(f: Field): string
  {
    match f
    case Timestamp => "timestamp"
    case HistoricalEnergyConsumption => "historical_energy_consumption"
    case ParameterA => "parameter_a"
    case ParameterB => "parameter_b"
    case ForecastTime => "forecast_time"
    case Baseline => "baseline"
  }

  /** The order in which the validator checks fields and lists missing ones. */
  const RequiredFields: seq<Field> := [Timestamp, HistoricalEnergyConsumption, ParameterA, ParameterB, ForecastTime, Baseline]

  /** Position of a field in `RequiredFields`. */
  function Index(f: Field): (i: nat)
    ensures i < |RequiredFields| && RequiredFields[i] == f
  {
    match f
    case Timestamp => 0
    case HistoricalEnergyConsumption => 1
    case ParameterA => 2
    case ParameterB => 3
    case ForecastTime => 4
    case Baseline => 5
  }

  /** `field not in record or not record[field]`. */
  predicate IsMissing(rec: RawRecord, f: Field) {
    Name(f) !in rec || Falsy(rec[Name(f)])
  }

  /** The fields among `fs` that `rec` lacks, in the order of `fs`. */
  function MissingAmong(rec: RawRecord, fs: seq<Field>): (m: seq<Field>)
    ensures forall f :: f in m <==> f in fs && IsMissing(rec, f)
    ensures |m| <= |fs|
  {
    if fs == [] then [] else (if IsMissing(rec, fs[0]) then [fs[0]] else []) + MissingAmong(rec, fs[1..])
  }

  /** The `missing_fields` list of `validate_record`. */
  function MissingList(rec: RawRecord): seq<Field>
  {
    MissingAmong(rec, RequiredFields)
  }

  predicate IncreasingIndex(fs: seq<Field>) {
    forall i, j :: 0 <= i < j < |fs| ==> Index(fs[i]) < Index(fs[j])
  }

  /** The missing fields of an ordered list are ordered, and lie above any
      bound the list lies above. */
  lemma {:induction false} MissingAmongOrdered(rec: RawRecord, fs: seq<Field>, lo: int)
    requires IncreasingIndex(fs)
    requires forall k :: 0 <= k < |fs| ==> lo < Index(fs[k])
    ensures IncreasingIndex(MissingAmong(rec, fs))
    ensures forall k :: 0 <= k < |MissingAmong(rec, fs)| ==> lo < Index(MissingAmong(rec, fs)[k])
  {
    if fs != [] {
      var tail := fs[1..];
      assert forall i :: 0 <= i < |tail| ==> tail[i] == fs[i + 1];
      MissingAmongOrdered(rec, tail, Index(fs[0]));
      var rest := MissingAmong(rec, tail);
      if IsMissing(rec, fs[0]) {
        assert MissingAmong(rec, fs) == [fs[0]] + rest;
        ConsIncreasing(fs[0], rest);
      } else {
        assert MissingAmong(rec, fs) == rest;
      }
    }
  }

  lemma ConsIncreasing(f: Field, fs: seq<Field>)
    requires IncreasingIndex(fs)
    requires forall k :: 0 <= k < |fs| ==> Index(f) < Index(fs[k])
    ensures IncreasingIndex([f] + fs)
  {
    var m := [f] + fs;
    forall i, j | 0 <= i < j < |m| ensures Index(m[i]) < Index(m[j]) {
      assert m[j] == fs[j - 1];
      assert 0 < i ==> m[i] == fs[i - 1];
    }
  }

  /** A field is listed as missing exactly when it is absent or falsy, and the
      list follows the fixed field order, with each field at most once. */
  lemma MissingListMeaning(rec: RawRecord)
    ensures forall f :: f in MissingList(rec) <==> IsMissing(rec, f)
    ensures IncreasingIndex(MissingList(rec))
  {
    EveryFieldRequired();
    RequiredFieldsIncreasing();
    MissingAmongOrdered(rec, RequiredFields, -1);
  }

  lemma EveryFieldRequired()
    ensures forall f: Field :: f in RequiredFields
  {
    forall f: Field ensures f in RequiredFields {
      assert RequiredFields[Index(f)] == f;
    }
  }

  lemma RequiredFieldsIncreasing()
    ensures IncreasingIndex(RequiredFields)
  {
    forall i, j | 0 <= i < j < |RequiredFields| ensures Index(RequiredFields[i]) < Index(RequiredFields[j]) {
      assert Index(RequiredFields[i]) == i && Index(RequiredFields[j]) == j;
    }
  }

  /** The aggregate status of one field over a batch. */
  datatype Status = Missing | Invalid | Present | Valid

  function StatusName(s: Status): string
  {
    match s
    case Missing => "missing"
    case Invalid => "invalid"
    case Present => "present"
    case Valid => "valid"
  }

  type StatusTable = map<Field, Status>

  /** The status each field starts with. */
  function InitialStatus(f: Field): Status
  {
    if f == Timestamp then Missing else Invalid
  }

  /** The status a field is moved to once one of its values passes its check. */
  function PassedStatus(f: Field): (s: Status)
    ensures s != InitialStatus(f)
  {
    if f == Timestamp then Present else Valid
  }

  const InitialStatusTable: StatusTable := map[
    Timestamp := Missing,
    HistoricalEnergyConsumption := Invalid,
    ParameterA := Invalid,
    ParameterB := Invalid,
    ForecastTime := Invalid,
    Baseline := Invalid]

  /** A table that has an entry for every field, each either its starting
      status or its passed status. */
  predicate WellFormedTable(t: StatusTable) {
    forall f: Field :: f in t && (t[f] == InitialStatus(f) || t[f] == PassedStatus(f))
  }

  lemma InitialTableWellFormed()
    ensures WellFormedTable(InitialStatusTable)
    ensures forall f: Field :: InitialStatusTable[f] == InitialStatus(f)
  {
    forall f: Field
      ensures f in InitialStatusTable && InitialStatusTable[f] == InitialStatus(f)
    {
      match f
      case Timestamp =>
      case HistoricalEnergyConsumption =>
      case ParameterA =>
      case ParameterB =>
      case ForecastTime =>
      case Baseline =>
    }
  }
}
