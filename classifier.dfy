/**
 * Classification (main.go `assignRecords`): every record receives a
 * category, first by the fixed job numbers and the "pitch" keyword, then by
 * the intern/customer fallback for whatever is still unregistered.
 */
module Classifier {
  import opened Helpers
  import opened Categories
  import opened Records

  const JobNrOvertime: string := "SEIN-0001-0137"
  const JobNrNoWork: string := "SEIN-0001-0113"
  const JobNrSick: string := "SEIN-0001-0015"
  const JobNrVacation: string := "SEIN-0001-0012"

  /** One stage-1 rule: when it matches, the record is registered with category `t`. */
  function Mark(r: JobRecord, matches: bool, t: RecordType): JobRecord
  {
    if matches then r.(registered := true, recType := t) else r
  }

  /** The description mentions a pitch, in any case. */
  predicate IsPitch(r: JobRecord)
  {
    CaseInsensitiveContains(r.jobDesc, "pitch")
  }

  /**
   * Stage 1 on one record: the five rules run one after the other and each
   * overwrites what the earlier ones set.
   */
  function Stage1(r: JobRecord): JobRecord
  {
    var r1 := Mark(r, r.jobNr == JobNrVacation, Vacation);
    var r2 := Mark(r1, r.jobNr == JobNrSick, Sick);
    var r3 := Mark(r2, r.jobNr == JobNrNoWork, NoWork);
    var r4 := Mark(r3, r.jobNr == JobNrOvertime, Overtime);
    Mark(r4, IsPitch(r4), Pitch)
  }

  /** Stage 2 on one record: the fallback for records stage 1 left unregistered. */
  function Stage2(r: JobRecord): JobRecord
  {
    if HasSubstring(r.jobNr, "SEIN") && !r.registered then r.(registered := true, recType := Intern)
    else if !r.registered then r.(registered := true, recType := Customer)
    else r
  }

  /**
   * The effect of `assignRecords` on one record. Afterwards the record is
   * registered, and only `registered` and `recType` may have changed.
   */
  function Classify(r: JobRecord): (c: JobRecord)
    ensures c.registered
    ensures c.(registered := r.registered, recType := r.recType) == r
  {
    Stage2(Stage1(r))
  }

  /**
   * The category a fresh record should get, written as a priority table:
   * the keyword first, then the four job numbers, then the fallback.
   */
  function ExpectedCategory(jobNr: string, jobDesc: string): RecordType
  {
    if CaseInsensitiveContains(jobDesc, "pitch") then Pitch
    else if jobNr == JobNrOvertime then Overtime
    else if jobNr == JobNrNoWork then NoWork
    else if jobNr == JobNrSick then Sick
    else if jobNr == JobNrVacation then Vacation
    else if HasSubstring(jobNr, "SEIN") then Intern
    else Customer
  }

  /** The four job-number constants are pairwise distinct, so at most one of their rules fires. */
  lemma JobNrConstantsDistinct()
    ensures JobNrOvertime != JobNrNoWork && JobNrOvertime != JobNrSick && JobNrOvertime != JobNrVacation
    ensures JobNrNoWork != JobNrSick && JobNrNoWork != JobNrVacation && JobNrSick != JobNrVacation
  {
    // the last digits differ: 7, 3, 5 and 2
    assert JobNrOvertime[13] == '7' && JobNrNoWork[13] == '3';
    assert JobNrSick[13] == '5' && JobNrVacation[13] == '2';
  }

  /**
   * The sequential rules of the source agree with the priority table on
   * every record that the parser produced (not yet registered).
   */
  lemma ClassifyMatchesTable(r: JobRecord)
    requires !r.registered
    ensures Classify(r) == r.(registered := true, recType := ExpectedCategory(r.jobNr, r.jobDesc))
  {
    JobNrConstantsDistinct();
  }

  /** The pitch rule runs last, so it wins over every job-number rule. */
  lemma PitchWins(r: JobRecord)
    requires IsPitch(r)
    ensures Classify(r).recType == Pitch
  {
  }

  /** Without the keyword, each of the four job numbers gives its own category. */
  lemma JobNrRules(r: JobRecord)
    requires !IsPitch(r)
    ensures r.jobNr == JobNrVacation ==> Classify(r).recType == Vacation
    ensures r.jobNr == JobNrSick ==> Classify(r).recType == Sick
    ensures r.jobNr == JobNrNoWork ==> Classify(r).recType == NoWork
    ensures r.jobNr == JobNrOvertime ==> Classify(r).recType == Overtime
  {
    JobNrConstantsDistinct();
  }

  /**
   * A fresh record that no stage-1 rule matches is an intern record exactly
   * when its job number contains "SEIN" (case-sensitive), else a customer record.
   */
  lemma Fallback(r: JobRecord)
    requires !r.registered && !IsPitch(r)
    requires r.jobNr !in [JobNrVacation, JobNrSick, JobNrNoWork, JobNrOvertime]
    ensures Classify(r).recType == Intern <==> HasSubstring(r.jobNr, "SEIN")
    ensures Classify(r).recType == Customer <==> !HasSubstring(r.jobNr, "SEIN")
  {
  }

  /** A fresh record always ends in one of the seven categories other than holidays. */
  lemma ClassifiedRange(r: JobRecord)
    requires !r.registered
    ensures Classify(r).recType in RecordTypes()
    ensures Classify(r).recType != Holidays
  {
  }

  /**
   * main.go `assignRecords`, in place on the shared array. The first loop
   * applies the stage-1 rules to every record, the second the fallback, and
   * the third collects the records the source prints as "not registered";
   * that list is always empty.
   */
  method AssignRecords(recs: array<JobRecord>) returns (reported: seq<JobRecord>)
    modifies recs
    ensures forall i :: 0 <= i < recs.Length ==> recs[i] == Classify(old(recs[i]))
    ensures forall i :: 0 <= i < recs.Length ==> recs[i].registered
    ensures reported == []
  {
    var i := 0;
    while i < recs.Length
      invariant 0 <= i <= recs.Length
      invariant forall k :: 0 <= k < i ==> recs[k] == Stage1(old(recs[k]))
      invariant forall k :: i <= k < recs.Length ==> recs[k] == old(recs[k])
    {
      var rec := recs[i];
      if rec.jobNr == JobNrVacation {
        recs[i] := recs[i].(registered := true, recType := Vacation);
      }
      if rec.jobNr == JobNrSick {
        recs[i] := recs[i].(registered := true, recType := Sick);
      }
      if rec.jobNr == JobNrNoWork {
        recs[i] := recs[i].(registered := true, recType := NoWork);
      }
      if rec.jobNr == JobNrOvertime {
        recs[i] := recs[i].(registered := true, recType := Overtime);
      }
      if CaseInsensitiveContains(recs[i].jobDesc, "pitch") {
        recs[i] := recs[i].(registered := true, recType := Pitch);
      }
      i := i + 1;
    }

    i := 0;
    while i < recs.Length
      invariant 0 <= i <= recs.Length
      invariant forall k :: 0 <= k < i ==> recs[k] == Classify(old(recs[k]))
      invariant forall k :: i <= k < recs.Length ==> recs[k] == Stage1(old(recs[k]))
    {
      if HasSubstring(recs[i].jobNr, "SEIN") && !recs[i].registered {
        recs[i] := recs[i].(registered := true, recType := Intern);
      } else if !recs[i].registered {
        recs[i] := recs[i].(registered := true, recType := Customer);
      }
      i := i + 1;
    }

    reported := [];
    i := 0;
    while i < recs.Length
      invariant 0 <= i <= recs.Length
      invariant reported == []
    {
      var rec := recs[i];
      if !rec.registered {
        reported := reported + [rec];
      }
      i := i + 1;
    }
  }
}
