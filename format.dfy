/** Choosing between the JSON and the CSV reader, and what each reader
    contributes: rows, or one message and no rows. */
module Format {
  import opened Text
  import opened Values
  import opened Errors

  datatype DataFormat = Json | Csv | Unrecognised

  /** The decision of `detect_and_parse_data`, made on the stripped text. */
  function DetectFormat(data: string): DataFormat
  {
    var d := Strip(data);
    if |d| > 0 && d[0] == '{' then Json
    else if ',' in d && ('\n' in d || |Split(d, ',')| >= 6) then Csv
    else Unrecognised
  }

  /** The detection rule in terms of counts: JSON when the stripped text starts
      with `{`; otherwise CSV when it has a comma and either a line break or at
      least five commas (six comma-separated pieces); otherwise neither. */
  lemma DetectFormatRule(data: string)
    ensures var d := Strip(data);
            && (DetectFormat(data) == Json <==> |d| > 0 && d[0] == '{')
            && (DetectFormat(data) == Csv
                <==> !(|d| > 0 && d[0] == '{') && Count(d, ',') >= 1
                     && (Count(d, '\n') >= 1 || Count(d, ',') >= 5))
            && (DetectFormat(data) == Unrecognised
                <==> !(|d| > 0 && d[0] == '{') && (Count(d, ',') == 0
                     || (Count(d, '\n') == 0 && Count(d, ',') < 5)))
  {
  }

  /** Leading and trailing whitespace never changes the decision. */
  lemma DetectFormatStripInvariant(data: string)
    ensures DetectFormat(Strip(data)) == DetectFormat(data)
  {
    var d := Strip(data);
    StripIdempotent(data);
    assert Strip(d) == d;
    assert (|Strip(d)| > 0 && Strip(d)[0] == '{') == (|d| > 0 && d[0] == '{');
    assert (',' in Strip(d)) == (',' in d) && ('\n' in Strip(d)) == ('\n' in d);
    assert Split(Strip(d), ',') == Split(d, ',');
  }

  /** What a reader returns, and what it appends to the log. */
  datatype Parsed = Parsed(rows: seq<RawRecord>, log: seq<Error>)

  /** A reader's contract: it appends at most one message, and when it does it
      returns no rows. */
  predicate ReaderContract(p: Parsed) {
    |p.log| <= 1 && (p.log != [] ==> p.rows == []) && (forall e :: e in p.log ==> e.FormatError?)
  }

  /** `parse_json_data`: the `records` list of the decoded object, or one message. */
  function ParseJson(lib: Builtins, data: string): (p: Parsed)
    ensures ReaderContract(p)
  {
    match lib.loadJson(data)
    case JsonDecodeError(detail) => Parsed([], [FormatError(BadJson(detail))])
    case JsonObject(None) => Parsed([], [FormatError(NoRecordsArray)])
    case JsonObject(Some(rows)) => Parsed(rows, [])
  }

  /** `parse_csv_data`: the rows the reader makes of the stripped text's lines,
      or one message. */
  function ParseCsv(lib: Builtins, data: string): (p: Parsed)
    ensures ReaderContract(p)
  {
    match lib.readCsv(Split(Strip(data), '\n'))
    case CsvError(detail) => Parsed([], [FormatError(BadCsv(detail))])
    case CsvRows(rows) => Parsed(rows, [])
  }

  /** `detect_and_parse_data`: the chosen reader on the stripped text, or, when
      the text is neither JSON nor CSV, one message and no rows. */
  function DetectAndParse(lib: Builtins, data: string): (p: Parsed)
    ensures ReaderContract(p)
    ensures DetectFormat(data) == Unrecognised ==> p == Parsed([], [FormatError(UnknownFormat)])
    ensures DetectFormat(data) == Json ==> p == ParseJson(lib, Strip(data))
    ensures DetectFormat(data) == Csv ==> p == ParseCsv(lib, Strip(data))
  {
    match DetectFormat(data)
    case Json => ParseJson(lib, Strip(data))
    case Csv => ParseCsv(lib, Strip(data))
    case Unrecognised => Parsed([], [FormatError(UnknownFormat)])
  }
}
