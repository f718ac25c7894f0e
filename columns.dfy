/**
 * Spreadsheet column addressing: bijective base 26 over 'A'..'Z', with no
 * zero digit (1 is "A", 26 is "Z", 27 is "AA"), and the A1-style range
 * strings built from it.
 */
module Columns {

  /** The letter for a base-26 digit 0..25. */
  function Letter(d: int): (c: char)
    requires 0 <= d < 26
    ensures 'A' <= c <= 'Z' && c as int - 65 == d
  {
    (65 + d) as char
  }

  /** The label `column_letter(n)` computes, stated recursively; `""` for `n <= 0`. */
  function Label(n: int): string
    decreases n
  {
    if n <= 0 then "" else Label((n - 1) / 26) + [Letter((n - 1) % 26)]
  }

  predicate IsLetters(s: string) {
    forall k :: 0 <= k < |s| ==> 'A' <= s[k] <= 'Z'
  }

  /** Reads a label back as a bijective base-26 numeral. */
  function Value(s: string): int
  {
    if s == [] then 0 else 26 * Value(s[..|s| - 1]) + (s[|s| - 1] as int - 64)
  }

  /**
   * `column_letter(number)`: peels off `divmod(number - 1, 26)` and prepends
   * the letter for each remainder until the number reaches zero.
   */
  method ColumnLetter(number: int) returns (s: string)
    ensures s == Label(number)
  {
    var n := number;
    s := "";
    while n > 0
      invariant Label(number) == Label(n) + s
      decreases n
    {
      var remainder := (n - 1) % 26;
      n := (n - 1) / 26;
      s := [Letter(remainder)] + s;
    }
  }

  /** Positive numbers get a non-empty label over 'A'..'Z'; the others get `""`. */
  lemma {:induction false} LabelShape(n: int)
    ensures n <= 0 ==> Label(n) == ""
    ensures n >= 1 ==> |Label(n)| >= 1 && IsLetters(Label(n))
    decreases n
  {
    if n >= 1 {
      LabelShape((n - 1) / 26);
    }
  }

  /** Reading a label back gives the number again. */
  lemma {:induction false} ValueOfLabel(n: int)
    requires n >= 0
    ensures Value(Label(n)) == n
    decreases n
  {
    if n > 0 {
      var q, d := (n - 1) / 26, (n - 1) % 26;
      ValueOfLabel(q);
      var s := Label(n);
      assert s == Label(q) + [Letter(d)];
      assert s[..|s| - 1] == Label(q);
    }
  }

  /** Every string over 'A'..'Z' is the label of exactly the number it reads as. */
  lemma {:induction false} LabelOfValue(s: string)
    requires IsLetters(s)
    ensures Value(s) >= 0 && (s != [] ==> Value(s) >= 1)
    ensures Label(Value(s)) == s
  {
    if s != [] {
      var p, c := s[..|s| - 1], s[|s| - 1];
      assert IsLetters(p);
      LabelOfValue(p);
      var n := Value(s);
      assert n == 26 * Value(p) + (c as int - 64);
      assert (n - 1) / 26 == Value(p) && (n - 1) % 26 == c as int - 65;
      assert s == p + [c];
    }
  }

  /** Distinct positive columns get distinct labels. */
  lemma LabelInjective(n: int, m: int)
    requires n >= 1 && m >= 1
    requires Label(n) == Label(m)
    ensures n == m
  {
    ValueOfLabel(n);
    ValueOfLabel(m);
  }

  lemma LabelExamples()
    ensures Label(1) == "A" && Label(26) == "Z" && Label(27) == "AA"
    ensures Label(702) == "ZZ" && Label(703) == "AAA"
  {
    assert Label(0) == "";
    assert Label(1) == "A";
    assert Label(26) == "Z";
    assert Label(27) == Label(1) + "A";
    assert Label(702) == Label(26) + "Z";
    assert Label(703) == Label(27) + "A";
  }

  /** The decimal digits Python's f-string writes for a non-negative integer. */
  function Decimal(n: nat): string
  {
    if n < 10 then [(48 + n) as char] else Decimal(n / 10) + [(48 + n % 10) as char]
  }

  predicate IsDigits(s: string) {
    forall k :: 0 <= k < |s| ==> '0' <= s[k] <= '9'
  }

  function DecimalValue(s: string): int
  {
    if s == [] then 0 else 10 * DecimalValue(s[..|s| - 1]) + (s[|s| - 1] as int - 48)
  }

  lemma {:induction false} DecimalRoundTrip(n: nat)
    ensures Decimal(n) != [] && IsDigits(Decimal(n))
    ensures DecimalValue(Decimal(n)) == n
    decreases n
  {
    var s := Decimal(n);
    if n >= 10 {
      DecimalRoundTrip(n / 10);
      assert s[..|s| - 1] == Decimal(n / 10);
    } else {
      assert s[..|s| - 1] == [];
    }
  }

  /**
   * The range `upload_to_sheets` writes to: `{sheet}!{start}1:{end}{rows}`,
   * columns `start..end` as letters and rows `1..rows`.
   */
  function RangeString(sheet: string, start: int, end: int, rows: nat): string
  {
    sheet + "!" + Label(start) + "1:" + Label(end) + Decimal(rows)
  }

  /**
   * The range string is the sheet name, then letters that read back as the
   * first column, row 1, then letters that read back as the last column and
   * digits that read back as the row count.
   */
  lemma RangeStringDecodes(sheet: string, start: int, end: int, rows: nat)
    requires start >= 1 && end >= 1
    ensures exists a, b, d ::
              && RangeString(sheet, start, end, rows) == sheet + "!" + a + "1:" + b + d
              && a != [] && IsLetters(a) && Value(a) == start
              && b != [] && IsLetters(b) && Value(b) == end
              && d != [] && IsDigits(d) && DecimalValue(d) == rows
  {
    LabelShape(start);
    LabelShape(end);
    ValueOfLabel(start);
    ValueOfLabel(end);
    DecimalRoundTrip(rows);
    var a, b, d := Label(start), Label(end), Decimal(rows);
    assert RangeString(sheet, start, end, rows) == sheet + "!" + a + "1:" + b + d;
  }
}
