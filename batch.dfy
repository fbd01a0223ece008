/** What one `validate_data` pass over the parsed rows means: the messages it
    logs, the status table it leaves, and the records it keeps. Each is a fold
    over the rows in input order, row `i` (from 0) carrying row number `i + 1`. */
module Batch {
  import opened Values
  import opened Fields
  import opened Errors
  import opened Checks

  /** Everything validating `rows` appends to the log. */
  function BatchErrors(lib: Builtins, rows: seq<RawRecord>): seq<Error>
    decreases |rows|
  {
    if rows == [] then []
    else BatchErrors(lib, rows[..|rows| - 1]) + RowErrors(lib, rows[|rows| - 1], |rows|)
  }

  /** The status table after validating `rows`, starting from `t`. */
  function BatchStatus(lib: Builtins, t: StatusTable, rows: seq<RawRecord>): (t': StatusTable)
    ensures t'.Keys == t.Keys
    ensures WellFormedTable(t) ==> WellFormedTable(t')
    decreases |rows|
  {
    if rows == [] then t
    else MergeRow(lib, BatchStatus(lib, t, rows[..|rows| - 1]), rows[|rows| - 1])
  }

  /** No row makes the conversion in `validate_data` raise. */
  predicate NoCrash(lib: Builtins, rows: seq<RawRecord>) {
    forall i :: 0 <= i < |rows| ==> !Crashes(lib, rows[i])
  }

  /** The records `validate_data` keeps: the converted rows for which
      `validate_record` returned true (nothing missing), in input order. */
  function BatchRecords(lib: Builtins, rows: seq<RawRecord>): (rs: seq<ProcessedRecord>)
    requires NoCrash(lib, rows)
    ensures |rs| <= |rows|
    decreases |rows|
  {
    if rows == [] then []
    else
      var last := rows[|rows| - 1];
      BatchRecords(lib, rows[..|rows| - 1])
        + (if MissingList(last) == [] then [Coerce(lib, last).value] else [])
  }

  /** Extending a pass by one row: the row's messages are appended, its merge
      is applied to the table, and its record (if kept) is appended. */
  lemma PassStep(lib: Builtins, t: StatusTable, rows: seq<RawRecord>, i: nat)
    requires i < |rows|
    ensures BatchErrors(lib, rows[..i + 1]) == BatchErrors(lib, rows[..i]) + RowErrors(lib, rows[i], i + 1)
    ensures BatchStatus(lib, t, rows[..i + 1]) == MergeRow(lib, BatchStatus(lib, t, rows[..i]), rows[i])
    ensures NoCrash(lib, rows[..i + 1]) <==> NoCrash(lib, rows[..i]) && !Crashes(lib, rows[i])
    ensures NoCrash(lib, rows[..i + 1]) ==>
              BatchRecords(lib, rows[..i + 1])
              == BatchRecords(lib, rows[..i])
               + (if MissingList(rows[i]) == [] then [Coerce(lib, rows[i]).value] else [])
  {
    var q := rows[..i + 1];
    assert q[..i] == rows[..i] && q[i] == rows[i] && |q| == i + 1;
    NoCrashSnoc(lib, rows[..i], rows[i]);
    assert q == rows[..i] + [rows[i]];
  }

  /** A row list extended by one row raises nowhere exactly when the list and
      the row do not. */
  lemma NoCrashSnoc(lib: Builtins, rows: seq<RawRecord>, rec: RawRecord)
    ensures NoCrash(lib, rows + [rec]) <==> NoCrash(lib, rows) && !Crashes(lib, rec)
  {
    var q := rows + [rec];
    assert q[|rows|] == rec;
    assert forall k :: 0 <= k < |rows| ==> q[k] == rows[k];
  }

  /** The log of a pass is ordered by row and, within a row, by field; every
      entry names one of the rows; and so no row has two missing-field messages
      and no field of a row two messages. */
  lemma {:induction false} BatchErrorsOrdered(lib: Builtins, rows: seq<RawRecord>)
    ensures Ordered(BatchErrors(lib, rows))
    ensures forall e :: e in BatchErrors(lib, rows) ==> 1 <= RowOf(e) <= |rows| && !e.FormatError?
    decreases |rows|
  {
    if rows != [] {
      var n := |rows|;
      var p := BatchErrors(lib, rows[..n - 1]);
      var r := RowErrors(lib, rows[n - 1], n);
      BatchErrorsOrdered(lib, rows[..n - 1]);
      RowErrorsShape(lib, rows[n - 1], n);
      forall i, j | 0 <= i < |p| && 0 <= j < |r| ensures Precedes(p[i], r[j]) {
        assert p[i] in p && r[j] in r;
      }
      OrderedConcat(p, r);
    }
  }

  /** Every row of `rows` is clean. */
  predicate AllClean(lib: Builtins, rows: seq<RawRecord>) {
    forall i :: 0 <= i < |rows| ==> RowClean(lib, rows[i])
  }

  lemma AllCleanSnoc(lib: Builtins, rows: seq<RawRecord>, rec: RawRecord)
    ensures AllClean(lib, rows + [rec]) <==> AllClean(lib, rows) && RowClean(lib, rec)
  {
    var q := rows + [rec];
    assert q[|rows|] == rec;
    assert forall k :: 0 <= k < |rows| ==> q[k] == rows[k];
  }

  /** A pass logs nothing exactly when every row is clean. */
  lemma {:induction false} BatchErrorsEmpty(lib: Builtins, rows: seq<RawRecord>)
    ensures BatchErrors(lib, rows) == [] <==> AllClean(lib, rows)
    decreases |rows|
  {
    if rows != [] {
      var n := |rows|;
      var p := rows[..n - 1];
      BatchErrorsEmpty(lib, p);
      RowErrorsEmpty(lib, rows[n - 1], n);
      AllCleanSnoc(lib, p, rows[n - 1]);
      assert rows == p + [rows[n - 1]];
    }
  }

  /** Every row of `rows` is clean and converts to the record in the same
      place of `rs`, whose fields all satisfy their rules. */
  predicate KeptInPlace(lib: Builtins, rows: seq<RawRecord>, rs: seq<ProcessedRecord>) {
    |rs| == |rows|
    && forall i :: 0 <= i < |rows| ==>
         RowClean(lib, rows[i]) && Coerce(lib, rows[i]) == Some(rs[i]) && Validated(lib, rs[i])
  }

  lemma KeptInPlaceSnoc(lib: Builtins, rows: seq<RawRecord>, rs: seq<ProcessedRecord>,
                        rec: RawRecord, r: ProcessedRecord)
    requires KeptInPlace(lib, rows, rs)
    requires RowClean(lib, rec) && Coerce(lib, rec) == Some(r) && Validated(lib, r)
    ensures KeptInPlace(lib, rows + [rec], rs + [r])
  {
    var q := rows + [rec];
    var qs := rs + [r];
    forall k | 0 <= k < |q|
      ensures RowClean(lib, q[k]) && Coerce(lib, q[k]) == Some(qs[k]) && Validated(lib, qs[k])
    {
      if k < |rows| {
        assert q[k] == rows[k] && qs[k] == rs[k];
      } else {
        assert q[k] == rec && qs[k] == r;
      }
    }
  }

  /** When every row is clean, nothing raises and every row is kept, converted,
      in its place, as a record whose fields all satisfy their rules. */
  lemma {:induction false} CleanBatch(lib: Builtins, rows: seq<RawRecord>)
    requires AllClean(lib, rows)
    ensures NoCrash(lib, rows)
    ensures KeptInPlace(lib, rows, BatchRecords(lib, rows))
    decreases |rows|
  {
    if rows != [] {
      var n := |rows|;
      var p := rows[..n - 1];
      var last := rows[n - 1];
      assert rows == p + [last];
      AllCleanSnoc(lib, p, last);
      CleanBatch(lib, p);
      CleanRowCoerces(lib, last);
      NoCrashSnoc(lib, p, last);
      var r := Coerce(lib, last).value;
      assert BatchRecords(lib, rows) == BatchRecords(lib, p) + [r];
      KeptInPlaceSnoc(lib, p, BatchRecords(lib, p), last, r);
    }
  }

  /** The status of a field after a pass is either what it was or its passed
      status, and it is the passed status exactly when it already was or some
      row of the pass has a value for the field that passes its check: a status
      never reverts, and never claims a success no row had. */
  lemma {:induction false} BatchStatusLaw(lib: Builtins, t: StatusTable, rows: seq<RawRecord>, f: Field)
    requires f in t
    ensures f in BatchStatus(lib, t, rows)
    ensures BatchStatus(lib, t, rows)[f] == t[f] || BatchStatus(lib, t, rows)[f] == PassedStatus(f)
    ensures BatchStatus(lib, t, rows)[f] == PassedStatus(f)
        <==> t[f] == PassedStatus(f) || exists i :: 0 <= i < |rows| && Passes(lib, rows[i], f)
    decreases |rows|
  {
    if rows != [] {
      var n := |rows|;
      var p := rows[..n - 1];
      BatchStatusLaw(lib, t, p, f);
      assert forall i :: 0 <= i < n - 1 ==> p[i] == rows[i];
      if exists i :: 0 <= i < n && Passes(lib, rows[i], f) {
        var i :| 0 <= i < n && Passes(lib, rows[i], f);
        if i < n - 1 {
          assert Passes(lib, p[i], f);
        }
      }
    }
  }

  /** A row that makes the pass raise leaves the log non-empty, so such a pass
      would not have succeeded even without the exception. */
  lemma CrashLeavesError(lib: Builtins, rows: seq<RawRecord>, i: nat)
    requires i < |rows| && Crashes(lib, rows[i])
    ensures BatchErrors(lib, rows[..i + 1]) != []
  {
    var q := rows[..i + 1];
    assert q[i] == rows[i];
    CrashIsLogged(lib, rows[i], i + 1);
    assert |q| == i + 1 && q[..i] == rows[..i];
    assert BatchErrors(lib, q) == BatchErrors(lib, rows[..i]) + RowErrors(lib, rows[i], i + 1);
  }
}
