/**
 * Row parsing (main.go `jobrecord`, `parseRecords`): raw rows of the
 * timesheet export become job records, freelancers are skipped and the
 * first surviving row, the header, is dropped.
 */
module Records {
  import opened Helpers
  import opened Categories

  /**
   * The working time of a record, kept as the text of its column. The
   * conversion to a 32-bit float is not part of this model.
   */
  datatype Hours = Hours(text: string)

  /** One timesheet line (main.go `jobrecord`). */
  datatype JobRecord = JobRecord(
    shortName: string,
    name: string,
    activity: string,
    jobDesc: string,
    jobNr: string,
    workingTime: Hours,
    registered: bool,
    recType: RecordType)

  /** Full names whose rows are ignored. */
  const Freelancer: seq<string> := ["Tina Botz"]

  /** A row the parser keeps: its full name (column 1) is not a freelancer. */
  predicate Kept(row: seq<string>)
    requires |row| >= 2
  {
    row[1] !in Freelancer
  }

  /**
   * What the parser can read without indexing out of range: every row has
   * a name column, and every kept row also has the hours column 8.
   */
  predicate Parsable(data: seq<seq<string>>)
  {
    forall i :: 0 <= i < |data| ==> |data[i]| >= 2 && (Kept(data[i]) ==> |data[i]| >= 9)
  }

  /** The kept rows, in input order. */
  function KeptRows(data: seq<seq<string>>): (kept: seq<seq<string>>)
    requires Parsable(data)
    ensures |kept| <= |data|
    ensures forall k :: 0 <= k < |kept| ==> |kept[k]| >= 9 && Kept(kept[k])
    decreases |data|
  {
    if data == [] then []
    else
      var init, last := data[..|data| - 1], data[|data| - 1];
      assert forall i :: 0 <= i < |init| ==> init[i] == data[i];
      KeptRows(init) + (if Kept(last) then [last] else [])
  }

  /** The row filter distributes over concatenation, so it keeps input order. */
  lemma {:induction false} KeptRowsAppend(a: seq<seq<string>>, b: seq<seq<string>>)
    requires Parsable(a) && Parsable(b)
    ensures Parsable(a + b)
    ensures KeptRows(a + b) == KeptRows(a) + KeptRows(b)
    decreases |b|
  {
    assert Parsable(a + b) by {
      forall i | 0 <= i < |a + b|
        ensures |(a + b)[i]| >= 2 && (Kept((a + b)[i]) ==> |(a + b)[i]| >= 9)
      {
        if i < |a| { assert (a + b)[i] == a[i]; } else { assert (a + b)[i] == b[i - |a|]; }
      }
    }
    if b == [] {
      assert a + b == a;
    } else {
      var binit := b[..|b| - 1];
      assert Parsable(binit) by {
        assert forall i :: 0 <= i < |binit| ==> binit[i] == b[i];
      }
      KeptRowsAppend(a, binit);
      assert (a + b)[..|a + b| - 1] == a + binit;
      assert (a + b)[|a + b| - 1] == b[|b| - 1];
    }
  }

  /** A row is kept exactly when it is a well-formed row of the input whose name is no freelancer's. */
  lemma {:induction false} KeptRowsMembers(data: seq<seq<string>>, row: seq<string>)
    requires Parsable(data)
    ensures row in KeptRows(data) <==> row in data && |row| >= 2 && Kept(row)
    decreases |data|
  {
    if data != [] {
      var init := data[..|data| - 1];
      assert forall i :: 0 <= i < |init| ==> init[i] == data[i];
      KeptRowsMembers(init, row);
      assert data == init + [data[|data| - 1]];
    }
  }

  /** A row whose name is not in the freelancer list means at least one row survives. */
  lemma {:induction false} KeptRowsNonEmpty(data: seq<seq<string>>, i: nat)
    requires Parsable(data)
    requires i < |data| && Kept(data[i])
    ensures |KeptRows(data)| >= 1
  {
    KeptRowsMembers(data, data[i]);
  }

  /** Every prefix of parsable input is parsable. */
  lemma ParsablePrefix(data: seq<seq<string>>, n: nat)
    requires Parsable(data) && n <= |data|
    ensures Parsable(data[..n])
  {
    assert forall i :: 0 <= i < n ==> data[..n][i] == data[i];
  }

  /** Reading one more row adds it to the kept rows exactly when it is kept. */
  lemma KeptRowsStep(data: seq<seq<string>>, n: nat)
    requires Parsable(data) && n < |data|
    ensures Parsable(data[..n]) && Parsable(data[..n + 1])
    ensures KeptRows(data[..n + 1]) == KeptRows(data[..n]) + (if Kept(data[n]) then [data[n]] else [])
  {
    ParsablePrefix(data, n);
    ParsablePrefix(data, n + 1);
    assert data[..n + 1][..n] == data[..n];
    assert data[..n + 1][n] == data[n];
  }

  /** The record built from one kept row: columns 0, 1, 3, 6, 7 and 8, not yet registered. */
  function ToRecord(row: seq<string>): JobRecord
    requires |row| >= 9
  {
    JobRecord(row[0], row[1], row[3], row[6], row[7], Hours(row[8]), false, 0)
  }

  /** Records built from rows, one for one. */
  ghost predicate BuiltFrom(recs: seq<JobRecord>, rows: seq<seq<string>>)
  {
    |recs| == |rows| && forall k :: 0 <= k < |recs| ==> |rows[k]| >= 9 && recs[k] == ToRecord(rows[k])
  }

  /**
   * main.go `parseRecords`: one record per kept row, in input order, with
   * the first of them (the header) dropped. The source indexes `row[1]` of
   * every row, `row[8]` of every kept row and slices `[1:]` off the kept
   * records, so all three must be possible.
   */
  method ParseRecords(data: seq<seq<string>>) returns (recs: seq<JobRecord>)
    requires Parsable(data)
    requires exists i :: 0 <= i < |data| && Kept(data[i])
    ensures |recs| == |KeptRows(data)| - 1
    ensures forall k :: 0 <= k < |recs| ==> recs[k] == ToRecord(KeptRows(data)[k + 1])
    ensures forall k :: 0 <= k < |recs| ==> !recs[k].registered && recs[k].name !in Freelancer
  {
    var jobrecords: seq<JobRecord> := [];
    var i := 0;
    ParsablePrefix(data, 0);
    while i < |data|
      invariant 0 <= i <= |data|
      invariant Parsable(data[..i])
      invariant BuiltFrom(jobrecords, KeptRows(data[..i]))
    {
      var row := data[i];
      KeptRowsStep(data, i);
      var freelancer := Contains(Freelancer, row[1]);
      if !freelancer {
        jobrecords := jobrecords + [ToRecord(row)];
      }
      i := i + 1;
    }
    assert data[..i] == data;
    ghost var w :| 0 <= w < |data| && Kept(data[w]);
    KeptRowsNonEmpty(data, w);
    recs := jobrecords[1..];
  }
}
