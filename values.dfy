/** Values as the parsers deliver them, the Python built-ins the validator relies
    on, and the coerced record the forecast consumes. */
module Values {

  datatype Option<+T> = None | Some(value: T)

  /** A field value as a parser hands it over: JSON gives strings, numbers and
      null; the CSV reader gives strings, and null for a trailing cell the row
      does not have. */
  datatype Value = Str(s: string) | Num(x: real) | Null

  /** One parsed row: field name to raw value. */
  type RawRecord = map<string, Value>

  /** Python truthiness: `not value` holds for "", 0, 0.0 and None. */
  predicate Falsy(v: Value) {
    match v
    case Str(s) => s == ""
    case Num(x) => x == 0.0
    case Null => true
  }

  /** What `json.loads` yields for text that starts with `{`: an object, whose
      `records` entry is a list (`Some`) or is absent or not a list (`None`);
      or a decoding error with its message. */
  datatype JsonLoad = JsonObject(records: Option<seq<RawRecord>>) | JsonDecodeError(detail: string)

  /** What `list(csv.DictReader(lines))` yields: the rows, or the message of the
      exception it raised. */
  datatype CsvRead = CsvRows(rows: seq<RawRecord>) | CsvError(detail: string)

  /** The library calls the predictor makes, taken as given:
      `float(s)` on a string (`None` when it raises ValueError),
      `datetime.fromisoformat(s)` (false when it raises ValueError),
      `json.loads` and `csv.DictReader`. */
  datatype Builtins = Builtins(
    parseFloat: string -> Option<real>,
    fromIsoFormat: string -> bool,
    loadJson: string -> JsonLoad,
    readCsv: seq<string> -> CsvRead)

  /** `float(value)`: a number converts to itself, a string as `float` parses
      it, and `float(None)` raises TypeError. */
  function AsFloat(lib: Builtins, v: Value): Option<real>
  {
    match v
    case Num(x) => Some(x)
    case Str(s) => lib.parseFloat(s)
    case Null => None
  }

  /** `int(x)` on a float: truncation toward zero. */
  function Trunc(x: real): (n: int)
    ensures 0.0 <= x ==> 0 <= n && n as real <= x < n as real + 1.0
    ensures x < 0.0 ==> n <= 0 && n as real - 1.0 < x <= n as real
  {
    if x >= 0.0 then x.Floor else -((-x).Floor)
  }

  /** The record `validate_data` builds from a row whose fields are all present:
      the timestamp as given, the other fields through `float`, and
      `forecast_time` through `int(float(...))`. */
  datatype ProcessedRecord = ProcessedRecord(
    timestamp: Value,
    historicalEnergyConsumption: real,
    parameterA: real,
    parameterB: real,
    forecastTime: int,
    baseline: real)
}
