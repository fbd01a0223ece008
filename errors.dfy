/** The messages of the validation log, their exact text, and the order in
    which a validation pass writes them. */
module Errors {
  import opened Text
  import opened Fields

  /** Why a present field fails its check. */
  datatype FieldFault =
    | BadTimestamp        // not an ISO-8601 date-time
    | NotNumeric          // `float(value)` raised
    | NotPositive         // parsed, but not above zero
    | NotInteger          // `int(float(value))` raised
    | NotPositiveInteger  // parsed, but not a whole number above zero

  /** Why the input as a whole yields no records. */
  datatype FormatFault =
    | UnknownFormat           // neither JSON nor CSV by the detection rule
    | BadJson(detail: string) // `json.loads` raised, with its message
    | NoRecordsArray          // the JSON object has no `records` list
    | BadCsv(detail: string)  // the CSV reader raised, with its message

  /** One entry of the validation log; `row` is the 1-based row number. */
  datatype Error =
    | MissingFields(missing: seq<Field>, row: nat)
    | FieldError(field: Field, fault: FieldFault, row: nat)
    | FormatError(format: FormatFault)

  function Names(fs: seq<Field>): (names: seq<string>)
    ensures |names| == |fs|
  {
    if fs == [] then [] else [Name(fs[0])] + Names(fs[1..])
  }

  /** The text the source appends to `validation_errors` for each kind of error. */
  function Render(e: Error): (r: string)
    ensures |r| > 7 && r[..7] == "ERROR: "
  {
    "ERROR: " + Describe(e)
  }

  /** The row number as the messages of a row show it. */
  function RowTag(row: nat): string
  {
    " in row " + NatToString(row) + "."
  }

  /** The closing sentence of a field check message. */
  function Expected(fault: FieldFault): string
  {
    match fault
    case BadTimestamp => " Expected ISO format."
    case NotNumeric => " Expected numeric value."
    case NotPositive => " Expected positive number."
    case NotInteger => " Expected integer value."
    case NotPositiveInteger => " Expected positive integer."
  }

  function Describe(e: Error): string
  {
    match e
    case MissingFields(fs, row) =>
      "Missing required field(s): " + Join(Names(fs), ", ") + RowTag(row)
    case FieldError(f, fault, row) =>
      if fault == BadTimestamp then "Invalid timestamp format" + RowTag(row) + Expected(fault)
      else "Invalid value for field " + ("'" + Name(f) + "'") + RowTag(row) + Expected(fault)
    case FormatError(fault) =>
      match fault
      case UnknownFormat => "Invalid data format. Please provide data in CSV or JSON format."
      case BadJson(detail) => "Invalid JSON format. " + detail
      case NoRecordsArray => "Invalid JSON format. Expected 'records' array."
      case BadCsv(detail) => "Invalid CSV format. " + detail
  }

  /** The `n` characters of `s` from position `k`. */
  function Piece(s: string, k: nat, n: nat): string
    requires k + n <= |s|
  {
    s[k..k + n]
  }

  /** `t` occurs in `s` as a contiguous piece. */
  predicate Mentions(s: string, t: string) {
    exists k: nat :: k + |t| <= |s| && Piece(s, k, |t|) == t
  }

  lemma MentionsMiddle(a: string, b: string, c: string)
    ensures Mentions(a + b + c, b)
  {
    var s := a + b + c;
    assert Piece(s, |a|, |b|) == b;
  }

  lemma MissingFieldsMentions(fs: seq<Field>, row: nat)
    ensures Mentions(Render(MissingFields(fs, row)), Join(Names(fs), ", "))
    ensures Mentions(Render(MissingFields(fs, row)), RowTag(row))
  {
    var head := "ERROR: " + "Missing required field(s): ";
    var names := Join(Names(fs), ", ");
    AppendAssoc("ERROR: ", "Missing required field(s): " + names, RowTag(row));
    AppendAssoc("ERROR: ", "Missing required field(s): ", names);
    assert Render(MissingFields(fs, row)) == head + names + RowTag(row);
    MentionsMiddle(head, names, RowTag(row));
    MentionsMiddle(head + names, RowTag(row), []);
    assert head + names + RowTag(row) + [] == head + names + RowTag(row);
  }

  lemma FieldErrorMentions(f: Field, fault: FieldFault, row: nat)
    ensures Mentions(Render(FieldError(f, fault, row)), RowTag(row))
    ensures fault != BadTimestamp ==> Mentions(Render(FieldError(f, fault, row)), "'" + Name(f) + "'")
  {
    var tail := Expected(fault);
    if fault == BadTimestamp {
      var head := "Invalid timestamp format";
      AppendAssoc("ERROR: ", head + RowTag(row), tail);
      AppendAssoc("ERROR: ", head, RowTag(row));
      MentionsMiddle("ERROR: " + head, RowTag(row), tail);
    } else {
      var head := "Invalid value for field ";
      var quoted := "'" + Name(f) + "'";
      AppendAssoc("ERROR: ", head + quoted + RowTag(row), tail);
      AppendAssoc("ERROR: ", head + quoted, RowTag(row));
      AppendAssoc("ERROR: ", head, quoted);
      assert Render(FieldError(f, fault, row)) == "ERROR: " + head + quoted + RowTag(row) + tail;
      MentionsMiddle("ERROR: " + head + quoted, RowTag(row), tail);
      AppendAssoc("ERROR: " + head + quoted, RowTag(row), tail);
      assert Render(FieldError(f, fault, row)) == "ERROR: " + head + quoted + (RowTag(row) + tail);
      MentionsMiddle("ERROR: " + head, quoted, RowTag(row) + tail);
    }
  }

  /** A row's message names its row; the combined message names the missing
      fields, comma separated, in their order; a field check message (other
      than the timestamp message, which says "timestamp format") names its
      field in quotes; the reader messages carry the reader's detail. */
  lemma RenderMentions(e: Error)
    ensures !e.FormatError? ==> Mentions(Render(e), RowTag(RowOf(e)))
    ensures e.MissingFields? ==> Mentions(Render(e), Join(Names(e.missing), ", "))
    ensures e.FieldError? && e.fault != BadTimestamp ==> Mentions(Render(e), "'" + Name(e.field) + "'")
    ensures e.FormatError? && (e.format.BadJson? || e.format.BadCsv?) ==> Mentions(Render(e), e.format.detail)
  {
    match e {
      case MissingFields(fs, row) => MissingFieldsMentions(fs, row);
      case FieldError(f, fault, row) => FieldErrorMentions(f, fault, row);
      case FormatError(fault) =>
        if fault.BadJson? {
          AppendAssoc("ERROR: ", "Invalid JSON format. ", fault.detail);
          MentionsMiddle("ERROR: " + "Invalid JSON format. ", fault.detail, []);
          assert "ERROR: " + "Invalid JSON format. " + fault.detail + [] == Render(e);
        } else if fault.BadCsv? {
          AppendAssoc("ERROR: ", "Invalid CSV format. ", fault.detail);
          MentionsMiddle("ERROR: " + "Invalid CSV format. ", fault.detail, []);
          assert "ERROR: " + "Invalid CSV format. " + fault.detail + [] == Render(e);
        }
    }
  }

  /** The row an entry is about (0 for a format error, which precedes all rows). */
  function RowOf(e: Error): nat
  {
    match e
    case MissingFields(_, row) => row
    case FieldError(_, _, row) => row
    case FormatError(_) => 0
  }

  /** Where within its row an entry is written: the missing-field message first,
      then one slot per field in the fixed field order. */
  function Slot(e: Error): nat
  {
    match e
    case MissingFields(_, _) => 0
    case FieldError(f, _, _) => Index(f) + 1
    case FormatError(_) => 0
  }

  predicate Precedes(d: Error, e: Error) {
    RowOf(d) < RowOf(e) || (RowOf(d) == RowOf(e) && Slot(d) < Slot(e))
  }

  /** Entries strictly increase by (row, slot): rows in order, within a row the
      missing-field message before the field messages in field order, and never
      two entries for the same row and slot. */
  predicate Ordered(log: seq<Error>) {
    forall i, j :: 0 <= i < j < |log| ==> Precedes(log[i], log[j])
  }

  lemma OrderedConcat(a: seq<Error>, b: seq<Error>)
    requires Ordered(a) && Ordered(b)
    requires forall i, j :: 0 <= i < |a| && 0 <= j < |b| ==> Precedes(a[i], b[j])
    ensures Ordered(a + b)
  {
    forall i, j | 0 <= i < j < |a + b| ensures Precedes((a + b)[i], (a + b)[j]) {
      if j < |a| {
      } else if i < |a| {
        assert (a + b)[j] == b[j - |a|];
      } else {
        assert (a + b)[i] == b[i - |a|] && (a + b)[j] == b[j - |a|];
      }
    }
  }
}
