/**
 * How classified records reach the sheets: the writer (main.go `addToExcel`)
 * and the report (main.go `list`) both visit the categories in the order of
 * `RecordTypes` and, for each, pick the records of that category. The
 * workbook itself is not part of this model; what is modelled is which
 * records each visit picks, and the pipeline that produces them.
 */
module Sheets {
  import opened Categories
  import opened Records
  import opened Classifier

  /**
   * The records of category `rt` (those the per-sheet loops do not skip):
   * each one as often as it occurs in `recs`, in input order.
   */
  function OfType(recs: seq<JobRecord>, rt: RecordType): (sel: seq<JobRecord>)
    ensures |sel| <= |recs|
    ensures forall r :: r in sel <==> r in recs && r.recType == rt
    ensures forall r :: multiset(sel)[r] == if r.recType == rt then multiset(recs)[r] else 0
  {
    if recs == [] then []
    else
      assert recs == [recs[0]] + recs[1..];
      (if recs[0].recType == rt then [recs[0]] else []) + OfType(recs[1..], rt)
  }

  /** Selecting from two runs of records one after the other keeps their order. */
  lemma {:induction false} OfTypeAppend(a: seq<JobRecord>, b: seq<JobRecord>, rt: RecordType)
    ensures OfType(a + b, rt) == OfType(a, rt) + OfType(b, rt)
  {
    if a == [] {
      assert a + b == b;
    } else {
      assert (a + b)[1..] == a[1..] + b;
      OfTypeAppend(a[1..], b, rt);
    }
  }

  /** The number of records whose category is one of `types`. */
  function CountIn(recs: seq<JobRecord>, types: seq<RecordType>): nat
  {
    if recs == [] then 0
    else (if recs[0].recType in types then 1 else 0) + CountIn(recs[1..], types)
  }

  /** The per-sheet counts (the `amount` the writer prints), summed over the categories `types`. */
  function SheetCounts(recs: seq<JobRecord>, types: seq<RecordType>): nat
  {
    if types == [] then 0 else |OfType(recs, types[0])| + SheetCounts(recs, types[1..])
  }

  /** A category no record carries selects nothing. */
  lemma {:induction false} OfTypeNone(recs: seq<JobRecord>, rt: RecordType)
    requires forall k :: 0 <= k < |recs| ==> recs[k].recType != rt
    ensures OfType(recs, rt) == []
  {
    if recs != [] {
      OfTypeNone(recs[1..], rt);
    }
  }

  /** Taking one category out of the list separates its records from the rest. */
  lemma {:induction false} CountInSplit(recs: seq<JobRecord>, types: seq<RecordType>)
    requires |types| > 0 && types[0] !in types[1..]
    ensures CountIn(recs, types) == |OfType(recs, types[0])| + CountIn(recs, types[1..])
  {
    if recs != [] {
      CountInSplit(recs[1..], types);
      assert recs[0].recType in types <==> recs[0].recType == types[0] || recs[0].recType in types[1..];
    }
  }

  /** For distinct categories, the per-sheet counts add up to the records of those categories. */
  lemma {:induction false} SheetCountsDistinct(recs: seq<JobRecord>, types: seq<RecordType>)
    requires forall i, j :: 0 <= i < j < |types| ==> types[i] != types[j]
    ensures SheetCounts(recs, types) == CountIn(recs, types)
  {
    if types == [] {
      CountInNone(recs, types);
    } else {
      SheetCountsDistinct(recs, types[1..]);
      CountInSplit(recs, types);
    }
  }

  lemma {:induction false} CountInNone(recs: seq<JobRecord>, types: seq<RecordType>)
    requires types == []
    ensures CountIn(recs, types) == 0
  {
    if recs != [] {
      CountInNone(recs[1..], types);
    }
  }

  lemma {:induction false} CountInAll(recs: seq<JobRecord>, types: seq<RecordType>)
    requires forall k :: 0 <= k < |recs| ==> recs[k].recType in types
    ensures CountIn(recs, types) == |recs|
  {
    if recs != [] {
      CountInAll(recs[1..], types);
    }
  }

  /**
   * When every record has one of the eight categories, the per-category
   * selections pick every record exactly once in total: their counts add up
   * to the number of records. The writer reaches a selection only when the
   * workbook has a sheet for that category (main.go:213-216 skips a missing
   * one), so this is what it writes when every sheet exists.
   */
  lemma EverySheetOnce(recs: seq<JobRecord>)
    requires forall k :: 0 <= k < |recs| ==> recs[k].recType in RecordTypes()
    ensures SheetCounts(recs, RecordTypes()) == |recs|
  {
    SheetCountsDistinct(recs, RecordTypes());
    CountInAll(recs, RecordTypes());
  }

  /** Classification of every record of a collection. */
  function ClassifyAll(recs: seq<JobRecord>): seq<JobRecord>
  {
    seq(|recs|, k requires 0 <= k < |recs| => Classify(recs[k]))
  }

  /**
   * Records fresh from the parser, once classified, are picked exactly once
   * in total by the per-category selections, and the holidays selection is
   * empty. As for `EverySheetOnce`, the writer uses a selection only when the
   * workbook has that category's sheet.
   */
  lemma ClassifiedSheets(recs: seq<JobRecord>)
    requires forall k :: 0 <= k < |recs| ==> !recs[k].registered
    ensures SheetCounts(ClassifyAll(recs), RecordTypes()) == |recs|
    ensures OfType(ClassifyAll(recs), Holidays) == []
  {
    var c := ClassifyAll(recs);
    forall k | 0 <= k < |c| ensures c[k].recType in RecordTypes() && c[k].recType != Holidays {
      ClassifiedRange(recs[k]);
    }
    EverySheetOnce(c);
    OfTypeNone(c, Holidays);
  }

  /**
   * The pipeline of `main` up to the writer: parse the rows, then classify
   * the records in place. The result holds one classified record per kept
   * row after the header; no freelancer is among them, each carries one of
   * the seven categories other than holidays, and nothing is reported as
   * unregistered.
   */
  method ParseAndAssign(data: seq<seq<string>>) returns (recs: array<JobRecord>, reported: seq<JobRecord>)
    requires Parsable(data)
    requires exists i :: 0 <= i < |data| && Kept(data[i])
    ensures fresh(recs)
    ensures recs.Length == |KeptRows(data)| - 1
    ensures forall k :: 0 <= k < recs.Length ==> recs[k] == Classify(ToRecord(KeptRows(data)[k + 1]))
    ensures forall k :: 0 <= k < recs.Length ==>
      recs[k].name !in Freelancer && recs[k].recType in RecordTypes() && recs[k].recType != Holidays
    ensures reported == []
  {
    var parsed := ParseRecords(data);
    recs := new JobRecord[|parsed|](k requires 0 <= k < |parsed| => parsed[k]);
    reported := AssignRecords(recs);
    forall k | 0 <= k < recs.Length
      ensures recs[k].recType in RecordTypes() && recs[k].recType != Holidays
    {
      ClassifiedRange(parsed[k]);
    }
  }
}
