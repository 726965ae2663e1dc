/**
 * Cell addresses (main.go `coords`): an address such as "AB12" is split
 * into its column letters and its row number. The regular expression
 * `[0-9]+|[A-Z]+` finds, from left to right, the maximal runs of decimal
 * digits and of capital letters; `coords` takes the first two runs and reads
 * the second as an integer.
 */
module Coords {

  /** The largest Go `int` on a 64-bit platform. */
  const MaxInt: int := 0x7FFF_FFFF_FFFF_FFFF

  predicate IsDigit(c: char)
  {
    '0' <= c <= '9'
  }

  predicate IsCapital(c: char)
  {
    'A' <= c <= 'Z'
  }

  /** 1 for a digit, 2 for a capital letter, 0 for a character neither alternative matches. */
  function Class(c: char): nat
  {
    if IsDigit(c) then 1 else if IsCapital(c) then 2 else 0
  }

  /** A run: a non-empty string of digits only or of capitals only. */
  predicate IsRun(t: string)
  {
    |t| > 0 && Class(t[0]) != 0 && forall k :: 0 <= k < |t| ==> Class(t[k]) == Class(t[0])
  }

  /** The length of the maximal run at the start of `s` (what one greedy `+` consumes). */
  function RunLength(s: string): (n: nat)
    requires |s| > 0 && Class(s[0]) != 0
    ensures 1 <= n <= |s|
    ensures forall k :: 0 <= k < n ==> Class(s[k]) == Class(s[0])
    ensures n < |s| ==> Class(s[n]) != Class(s[0])
    decreases |s|
  {
    if |s| == 1 || Class(s[1]) != Class(s[0]) then 1 else 1 + RunLength(s[1..])
  }

  /** All matches of `[0-9]+|[A-Z]+` in `s`, left to right. */
  function Matches(s: string): (ts: seq<string>)
    ensures forall k :: 0 <= k < |ts| ==> IsRun(ts[k])
    decreases |s|
  {
    if s == [] then []
    else if Class(s[0]) == 0 then Matches(s[1..])
    else
      var n := RunLength(s);
      [s[..n]] + Matches(s[n..])
  }

  /** The characters of `s` that some alternative of the expression matches. */
  function Significant(s: string): string
  {
    if s == [] then [] else (if Class(s[0]) != 0 then [s[0]] else []) + Significant(s[1..])
  }

  function Concat(ts: seq<string>): string
  {
    if ts == [] then [] else ts[0] + Concat(ts[1..])
  }

  lemma {:induction false} SignificantAppend(a: string, b: string)
    ensures Significant(a + b) == Significant(a) + Significant(b)
  {
    if a != [] {
      assert (a + b)[1..] == a[1..] + b;
      SignificantAppend(a[1..], b);
    } else {
      assert a + b == b;
    }
  }

  lemma {:induction false} SignificantOfRun(t: string, c: nat)
    requires c != 0 && forall k :: 0 <= k < |t| ==> Class(t[k]) == c
    ensures Significant(t) == t
  {
    if t != [] {
      SignificantOfRun(t[1..], c);
    }
  }

  /**
   * The matches split the address without losing or reordering anything:
   * together they are exactly its digits and capitals, in order.
   */
  lemma {:induction false} MatchesCoverSignificant(s: string)
    ensures Concat(Matches(s)) == Significant(s)
    decreases |s|
  {
    if s != [] {
      if Class(s[0]) == 0 {
        MatchesCoverSignificant(s[1..]);
      } else {
        var n := RunLength(s);
        MatchesCoverSignificant(s[n..]);
        assert s == s[..n] + s[n..];
        SignificantAppend(s[..n], s[n..]);
        SignificantOfRun(s[..n], Class(s[0]));
        assert ([s[..n]] + Matches(s[n..]))[1..] == Matches(s[n..]);
      }
    }
  }

  /** The value of a string of decimal digits, most significant first. */
  function DecimalValue(t: string): nat
    requires forall k :: 0 <= k < |t| ==> IsDigit(t[k])
  {
    if t == [] then 0
    else
      assert IsDigit(t[|t| - 1]);
      DecimalValue(t[..|t| - 1]) * 10 + (t[|t| - 1] as int - '0' as int)
  }

  /**
   * `strconv.Atoi` applied to one run: a run of digits gives its value,
   * clamped to the largest `int` when out of range; a run of letters is a
   * syntax error, whose ignored result is 0.
   */
  function RunToInt(t: string): (n: int)
    requires IsRun(t)
    ensures 0 <= n <= MaxInt
  {
    if IsDigit(t[0]) then
      var v := DecimalValue(t);
      if v > MaxInt then MaxInt else v
    else 0
  }

  /**
   * main.go `coords`: the first run is the column, the second is read as
   * the row. With fewer than two runs the source indexes past its result,
   * which is why two are required.
   */
  function Coords(coord: string): (r: (string, int))
    requires |Matches(coord)| >= 2
    ensures IsRun(r.0) && 0 <= r.1 <= MaxInt
  {
    var ts := Matches(coord);
    (ts[0], RunToInt(ts[1]))
  }

  function DigitChar(d: nat): char
    requires d < 10
  {
    ('0' as int + d) as char
  }

  /** The decimal digits of a natural number, without leading zeros. */
  function Digits(n: nat): (t: string)
    ensures |t| >= 1 && forall k :: 0 <= k < |t| ==> IsDigit(t[k])
    ensures |t| > 1 ==> t[0] != '0'
  {
    if n < 10 then [DigitChar(n)] else Digits(n / 10) + [DigitChar(n % 10)]
  }

  /**
   * `strconv.Itoa`: decimal digits, with a minus sign for a negative number.
   * Reading the digits back gives the number's magnitude.
   */
  function Itoa(n: int): (t: string)
    ensures n >= 0 ==> (forall k :: 0 <= k < |t| ==> IsDigit(t[k])) && DecimalValue(t) == n
    ensures n >= 0 ==> |t| >= 1 && (|t| == 1 || t[0] != '0')
    ensures n < 0 ==> |t| >= 2 && t[0] == '-'
    ensures n < 0 ==> (forall k :: 1 <= k < |t| ==> IsDigit(t[k])) && DecimalValue(t[1..]) == -n
  {
    if n < 0 then
      var d := Digits(-n);
      DecimalValueOfDigits(-n);
      assert ("-" + d)[1..] == d;
      "-" + d
    else
      DecimalValueOfDigits(n);
      Digits(n)
  }

  /** Reading the digits of `n` back gives `n`. */
  lemma {:induction false} DecimalValueOfDigits(n: nat)
    ensures DecimalValue(Digits(n)) == n
  {
    if n >= 10 {
      var t := Digits(n);
      assert t[..|t| - 1] == Digits(n / 10);
      DecimalValueOfDigits(n / 10);
    }
  }

  /** A prefix of one class that the next character ends is the first match. */
  lemma FirstMatch(s: string, n: nat)
    requires 0 < n <= |s| && Class(s[0]) != 0
    requires forall k :: 0 <= k < n ==> Class(s[k]) == Class(s[0])
    requires n < |s| ==> Class(s[n]) != Class(s[0])
    ensures Matches(s) == [s[..n]] + Matches(s[n..])
  {
    var m := RunLength(s);
    if m != n {
      assert false;
    }
  }

  /** A column followed by a row number is matched as exactly those two runs. */
  lemma MatchesColumnRow(col: string, row: string)
    requires |col| > 0 && forall k :: 0 <= k < |col| ==> IsCapital(col[k])
    requires |row| > 0 && forall k :: 0 <= k < |row| ==> IsDigit(row[k])
    ensures Matches(col + row) == [col, row]
  {
    var s := col + row;
    assert s[..|col|] == col && s[|col|..] == row;
    assert Class(s[0]) == 2;
    assert forall k :: 0 <= k < |col| ==> Class(s[k]) == 2 by {
      forall k | 0 <= k < |col| ensures Class(s[k]) == 2 {
        assert s[k] == col[k];
      }
    }
    assert Class(s[|col|]) == 1 by {
      assert s[|col|] == row[0];
    }
    FirstMatch(s, |col|);
    FirstMatch(row, |row|);
    assert row[..|row|] == row && row[|row|..] == [];
    var rest := Matches(row);
    assert rest == [row];
    assert Matches(s) == [col] + rest;
  }

  /**
   * Addresses of the form `col + Itoa(row)`, which the writer reads with
   * `coords` (main.go:261, 278) and builds again (main.go:221, 279), are
   * parsed back into the same column and row.
   */
  lemma CoordsRoundTrip(col: string, row: int)
    requires |col| > 0 && forall k :: 0 <= k < |col| ==> IsCapital(col[k])
    requires 0 <= row <= MaxInt
    ensures |Matches(col + Itoa(row))| >= 2 && Coords(col + Itoa(row)) == (col, row)
  {
    MatchesColumnRow(col, Itoa(row));
    DecimalValueOfDigits(row);
  }

  /** The address of the example: "AB12" is column "AB", row 12. */
  lemma CoordsExample()
    ensures |Matches("AB12")| >= 2 && Coords("AB12") == ("AB", 12)
  {
    assert Itoa(12) == "12";
    assert "AB" + Itoa(12) == "AB12";
    CoordsRoundTrip("AB", 12);
  }
}
