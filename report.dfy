/** The text of `generate_validation_report`. */
module Report {
  import opened Text
  import opened Fields
  import opened Errors

  /** The summary of a report with an empty log (one line, split here only
      to keep it readable). */
  const SuccessMessage: string :=
    "Data validation is successful! "
    + "Would you like to proceed with the forecast analysis "
    + "or provide another dataset?\n"

  function StatusLine(t: StatusTable, f: Field): string
    requires f in t
  {
    "   - " + Name(f) + ": " + StatusName(t[f]) + "\n"
  }

  /** One status line per field of `fs`, in that order. */
  function StatusLines(t: StatusTable, fs: seq<Field>): string
    requires forall f :: f in fs ==> f in t
  {
    if fs == [] then "" else StatusLines(t, fs[..|fs| - 1]) + StatusLine(t, fs[|fs| - 1])
  }

  function ErrorLine(e: Error): string
  {
    "- " + Render(e) + "\n"
  }

  /** One `- message` line per log entry, in log order. */
  function ErrorLines(log: seq<Error>): string
  {
    if log == [] then "" else ErrorLines(log[..|log| - 1]) + ErrorLine(log[|log| - 1])
  }

  function TotalLine(total: nat): string
  {
    "- Total Records Evaluated: " + NatToString(total) + "\n"
  }

  /** The success message for an empty log, else the logged messages. */
  function Summary(log: seq<Error>): string
  {
    if log == [] then SuccessMessage else ErrorLines(log)
  }

  /** The part of the report before the summary: the record count and the six
      field statuses in the fixed field order. */
  function ReportHead(total: nat, t: StatusTable): string
    requires forall f: Field :: f in t
  {
    "# Smart Grid Data Validation Report:\n"
      + TotalLine(total)
      + "## Required Fields Check:\n"
      + StatusLines(t, RequiredFields)
      + "\n# Validation Summary:\n"
  }

  function ValidationReportText(total: nat, t: StatusTable, log: seq<Error>): string
    requires forall f: Field :: f in t
  {
    ReportHead(total, t) + Summary(log)
  }

  lemma {:induction false} ErrorLinesStart(log: seq<Error>)
    requires log != []
    ensures |ErrorLines(log)| >= 2 && ErrorLines(log)[..2] == "- "
    decreases |log|
  {
    var p := log[..|log| - 1];
    var tail := ErrorLine(log[|log| - 1]);
    assert ErrorLines(log) == ErrorLines(p) + tail;
    if p == [] {
      assert ErrorLines(log) == tail;
    } else {
      ErrorLinesStart(p);
      assert (ErrorLines(p) + tail)[..2] == ErrorLines(p)[..2];
    }
  }

  /** The summary tells the two outcomes apart: it is the success message
      exactly when nothing was logged, and otherwise it starts with the first
      logged message's bullet. */
  lemma SummaryShowsOutcome(log: seq<Error>)
    ensures Summary(log) == SuccessMessage <==> log == []
    ensures log != [] ==> |Summary(log)| >= 2 && Summary(log)[..2] == "- "
  {
    if log != [] {
      ErrorLinesStart(log);
      assert Summary(log)[0] == Summary(log)[..2][0] == '-';
      assert SuccessMessage[0] == 'D';
    }
  }

  lemma StatusLinesStep(t: StatusTable, fs: seq<Field>, k: nat)
    requires forall f: Field :: f in t
    requires k < |fs|
    ensures StatusLines(t, fs[..k + 1]) == StatusLines(t, fs[..k]) + StatusLine(t, fs[k])
  {
    assert fs[..k + 1][..k] == fs[..k];
  }

  lemma ErrorLinesStep(log: seq<Error>, k: nat)
    requires k < |log|
    ensures ErrorLines(log[..k + 1]) == ErrorLines(log[..k]) + ErrorLine(log[k])
  {
    assert log[..k + 1][..k] == log[..k];
  }
}
