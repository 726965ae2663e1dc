/**
 * The fixed table of record categories (main.go `recordType`). Each code is
 * also the index of the workbook sheet that receives the category's hours.
 */
module Categories {

  /** A category code; an unclassified record holds the zero value 0. */
  type RecordType = int

  const Overtime: RecordType := 8
  const NoWork: RecordType := 3
  const Sick: RecordType := 6
  const Vacation: RecordType := 5
  const Intern: RecordType := 4
  const Customer: RecordType := 1
  const Pitch: RecordType := 2
  const Holidays: RecordType := 7

  /**
   * The categories in the order the sheet writer and the report visit them.
   * Each of the codes 1..8 occurs exactly once.
   */
  function RecordTypes(): (r: seq<RecordType>)
    ensures |r| == 8
    ensures forall i, j :: 0 <= i < j < |r| ==> r[i] != r[j]
    ensures forall c :: c in r <==> 1 <= c <= 8
  {
    [Overtime, NoWork, Sick, Vacation, Intern, Customer, Pitch, Holidays]
  }

  /**
   * The name of a category: non-empty exactly for the eight codes of the
   * table, "" for every other value.
   */
  function ToString(rt: RecordType): (s: string)
    ensures s != "" <==> rt in RecordTypes()
  {
    match rt
    case 8 => "overtime"
    case 3 => "noWork"
    case 6 => "sick"
    case 5 => "vacation"
    case 4 => "intern"
    case 1 => "customer"
    case 2 => "pitch"
    case 7 => "holidays"
    case _ => ""
  }

  /** Distinct categories never share a name, so a name identifies its code. */
  lemma ToStringInjective(a: RecordType, b: RecordType)
    requires a in RecordTypes() && b in RecordTypes()
    requires ToString(a) == ToString(b)
    ensures a == b
  {
  }
}
