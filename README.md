# Timesheet record pipeline (sskAuslastung), modelled in Dafny

The program reads a timesheet export from the Proad tool, turns its rows into job
records, and puts each record into one of eight categories: overtime, no work, sick,
vacation, intern, customer, pitch and holidays. It then adds each record's hours to the
matching employee's row on the sheet for that category in a workbook.

This project models the record pipeline of `main.go`:

- **Row parsing** (`Records`): the `jobrecord` fields and `parseRecords`. Freelancer rows
  are skipped, columns 0/1/3/6/7/8 become fields, and the first surviving row (the
  header) is dropped.
- **Classification** (`Classifier`): `assignRecords`, written as an in-place method on an
  array of records with three loops.
  - Stage 1 applies the four job-number rules and then the case-insensitive "pitch"
    rule. Each rule overwrites the ones before it.
  - Stage 2 gives whatever is still unregistered the category intern (job number
    contains "SEIN") or customer.
  - The third loop collects the records the source prints as "not registered".
- **Category table** (`Categories`): the codes 1..8, `recordTypes` and `toString`.
- **Per-sheet selection** (`Sheets`): the writer and the report both visit the categories
  in table order and pick the records of each one. This module also holds the
  parse-then-classify pipeline of `main`.
- **Cell addresses** (`Coords`): `coords` splits an address on the regular expression
  `[0-9]+|[A-Z]+`. The module also models the `col + Itoa(row)` addresses the writer
  builds.
- **Helpers** (`Helpers`): `contains` (a search loop), `strings.Contains`,
  upper-casing, and `caseInsensitiveContains`.

Points of the code's behaviour that the model keeps as written:

- The pitch rule (main.go:179-182) runs after the four job-number rules (main.go:163-178)
  and overwrites them. A record whose description contains "pitch" is therefore a pitch
  record even when its job number is one of the constants (`Classifier.PitchWins`).
- The parser drops the first row that survives the freelancer filter, not the first
  input row (main.go:157).
- No total per employee is kept in memory. For each record, `setValueForEmployee` reads
  the employee's cell, adds the record's hours and writes the sum back
  (main.go:280-285). The cell therefore builds up the total one record at a time.
- `parseRecords` indexes column 1 of every row and column 8 of the rows it keeps
  (main.go:142, 145). `Records.Parsable` requires exactly that much.
- A record that is already registered when `assignRecords` starts keeps its category
  unless a stage-1 rule matches. This is because stage 2 tests the flag. The fallback and
  range lemmas are therefore stated for unregistered records, which is what the parser
  produces.

## Model

| member | source | states |
|---|---|---|
| `Helpers.Contains` | main.go:296-303 | a search loop over the list that returns true exactly when the name is an element of it |
| `Helpers.HasSubstring` | main.go:186 | the substring test used for "SEIN" holds exactly when the pattern occurs at some position; the empty pattern occurs everywhere |
| `Helpers.ToUpper` | main.go:292 | upper-casing keeps the length, leaves no lower-case letter, and changes each character only in case: a lower-case letter becomes the capital at the same position of the alphabet (`SameIgnoringCase`, stated by alphabet position and not through the upper-casing map) |
| `Helpers.CaseInsensitiveContains` | main.go:291-294 | upper-case-then-search holds exactly when the pattern occurs at some position, each character equal to the text's up to ASCII case (`SameIgnoringCase`: equal, or the lower-case and capital letter at the same alphabet position) |
| `Helpers.ExactImpliesCaseInsensitive` | main.go:291-294 | every exact occurrence is also a case-insensitive one |
| `Helpers.CaseInsensitiveContainsUpper` | main.go:291-294 | the test gives the same answer whether or not the text was upper-cased first |
| `Categories.RecordTypes` | main.go:305-316 | the category list has eight entries, no repeats, and is exactly the codes 1..8 (a permutation of them) |
| `Categories.ToString` | main.go:318-339 | a name is non-empty exactly for the eight codes of the table; every other value gives "" |
| `Categories.ToStringInjective` | main.go:318-339 | two categories with the same name are the same category |
| `Records.KeptRows` | main.go:140-144 | the kept rows are no more than the input, and each one has a non-freelancer name and at least nine columns |
| `Records.KeptRowsAppend` | main.go:140-156 | the freelancer filter distributes over concatenation, so it keeps input order |
| `Records.KeptRowsMembers` | main.go:140-144 | a row is kept if and only if it is an input row whose column 1 is not in the freelancer list |
| `Records.KeptRowsNonEmpty` | main.go:157 | one input row with a non-freelancer name makes the header slice `[1:]` possible |
| `Records.ParseRecords` | main.go:138-158 | gives one record per kept row after the first, in order; each takes columns 0/1/3/6/7/8 and starts unregistered; no freelancer appears; it requires exactly what the source indexes |
| `Classifier.Classify` | main.go:160-193 | after both stages the record is registered, and no field other than `registered` and `recType` changes |
| `Classifier.JobNrConstantsDistinct` | main.go:33-36 | the four job-number constants are pairwise distinct, so at most one job-number rule fires |
| `Classifier.ClassifyMatchesTable` | main.go:160-193 | on an unregistered record, the sequence of overwriting rules equals a priority table: pitch, then the four job numbers, then "SEIN" gives intern, else customer |
| `Classifier.PitchWins` | main.go:179-182 | a description containing "pitch" in any case makes the category pitch, even when the job number is one of the constants |
| `Classifier.JobNrRules` | main.go:163-178 | without "pitch", the vacation, sick, no-work and overtime job numbers each give their own category |
| `Classifier.Fallback` | main.go:185-193 | an unregistered record that no stage-1 rule matches becomes intern if and only if its job number contains "SEIN", and customer otherwise |
| `Classifier.ClassifiedRange` | main.go:185-193 | an unregistered record ends in one of the table's codes, and never in holidays |
| `Classifier.AssignRecords` | main.go:160-201 | in place, every array element becomes `Classify` of its old value; the array length is unchanged; all records end registered; the "not registered" list is empty |
| `Coords.RunLength` | main.go:252-253 | one greedy `+` of the expression takes the longest prefix of digits only, or of capitals only |
| `Coords.Matches` | main.go:252-253 | every match of `[0-9]+` or `[A-Z]+` is a non-empty run of one class |
| `Coords.MatchesCoverSignificant` | main.go:252-253 | joined together, the matches are exactly the digits and capitals of the address, in order |
| `Coords.RunToInt` | main.go:254 | reading the second run as an integer gives a value between 0 and the largest 64-bit `int` |
| `Coords.Coords` | main.go:251-256 | needs at least two runs; the column is a run and the row is between 0 and the largest `int` |
| `Coords.Digits` | main.go:279 | the decimal form of a row number is non-empty, all digits, and has no leading zero |
| `Coords.DecimalValueOfDigits` | main.go:254 | reading back the decimal digits of `n` gives `n` |
| `Coords.FirstMatch` | main.go:252-253 | a prefix of one class, followed by the end or by the other class, is the first match |
| `Coords.MatchesColumnRow` | main.go:252-253 | capitals followed by digits match as exactly those two runs |
| `Coords.Itoa` | main.go:221 | the decimal form of `n` reads back as `n` when `n >= 0` and has no leading zero; a negative number gives "-" followed by the digits of its magnitude |
| `Coords.CoordsRoundTrip` | main.go:251-256 | `coords(col + Itoa(n)) == (col, n)` for any non-empty column of capitals and any `0 <= n <= MaxInt`. These are the addresses the writer reads with `coords` (lines 261, 278) and builds again from column and row (lines 221, 279) |
| `Coords.CoordsExample` | main.go:251-256 | "AB12" is column "AB" and row 12 |
| `Sheets.OfType` | main.go:227-233 | a sheet's visit picks exactly the records of that category, each as many times as it occurs in the input (equal records from rows that differ only in unparsed columns are all written), and no more records than there are |
| `Sheets.OfTypeAppend` | main.go:227-233 | the selection of two runs of records is the selection of the first followed by that of the second, so the visit keeps input order |
| `Sheets.SheetCountsDistinct` | main.go:210-231 | over distinct categories, the per-sheet counts add up to the number of records in those categories |
| `Sheets.EverySheetOnce` | main.go:210-231 | when every record has a table category, the per-category selections add up to the number of records, so each record is picked in exactly one category. This holds for the writer when the workbook has a sheet for every category; lines 213-216 skip a missing one before counting `amount` |
| `Sheets.ClassifiedSheets` | main.go:210-231 | once classified, unregistered records are picked by the per-category selections exactly once in total, and the holidays selection is empty. For the writer this also assumes every sheet exists (lines 213-216) |
| `Sheets.ParseAndAssign` | main.go:57-68 | parse, then classify in place: one classified record per kept row after the header, with no freelancer, a non-holiday category, and an empty "not registered" list |

## Left out

- Command line, flags and program flow: `main`, the kingpin flags, the period default
  built with `filepath.Base`/`filepath.Ext`, and the dispatch on file extension
  (main.go:18-25, 48-89). `Sheets.ParseAndAssign` models only the parse and classify
  steps.
- File input and output: `parseRecordsXLSX`, `parseRecordsCSV`, `saveExcel` (main.go:106-136,
  244-249). The rows they produce are the `seq<seq<string>>` input of `ParseRecords`.
- Workbook writing: `addToExcel`'s use of the workbook, `getNextFreeCell` and
  `setValueForEmployee` (main.go:207-287). These depend on the spreadsheet library's
  sheet map, regex search, column naming and cell reads and writes. Only the choice of
  records per sheet is modelled (`Sheets.OfType`).
- Floating point: `strconv.ParseFloat` to `float32` (main.go:145), whose ignored error
  leaves 0 on a syntax error and ±Inf on a range error, and the additive float writes. `Records.Hours` keeps the text of column 8 instead of a number.
- Helpers.ToUpper: upper-cases the ASCII letters only. Go's `strings.ToUpper` is full
  Unicode. `Helpers.CaseInsensitiveContains` is approximate in the same way.
- Coords.RunToInt: assumes a 64-bit `int`. A run of digits too large for it is clamped to
  the largest value, and a run of letters reads as 0. This is the `strconv.Atoi` result
  that the source ignores the error of. Only these runs reach it.
- Coords.Itoa: the round trip through `coords` is proved only for non-negative rows. The
  row `-1` that `getNextFreeCell` returns on failure gives the address "-1" (main.go:221
  with an empty column), which is passed to the spreadsheet library and not modelled.
- Sheets.EverySheetOnce: this is about the per-category selections. When the workbook
  lacks the sheet for a category, the writer skips that category (main.go:213-216), and
  its records are written nowhere.
- The report `list()` and the "not registered" printout (main.go:195-200, 341-356) only
  print. The records that printout would show are returned by
  `Classifier.AssignRecords`, and the records the report picks per category are
  `Sheets.OfType`.
- Go panics (index out of range in `parseRecords` and `coords`) are preconditions, not
  modelled error values. The source does not recover from them.
