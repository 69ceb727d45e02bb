/**
 * Excel-style column addresses: a label such as "A", "Z" or "AB" names a
 * 1-based column number in bijective base 26 (digits 'A' = 1 .. 'Z' = 26,
 * the rightmost letter least significant, no zero digit).
 */
module ColumnAddress {

  predicate IsUpperLetter(c: char) {
    'A' <= c <= 'Z'
  }

  /** A well-formed label: every character an uppercase letter. */
  predicate IsUpperLabel(s: string) {
    forall i :: 0 <= i < |s| ==> IsUpperLetter(s[i])
  }

  /** The digit value the program gives any character: `c - 'A' + 1`, unchecked. */
  function DigitValue(c: char): int {
    c as int - 'A' as int + 1
  }

  function Pow26(n: nat): (r: nat)
    ensures r >= 1
  {
    if n == 0 then 1 else 26 * Pow26(n - 1)
  }

  /**
   * The value of a label, read left to right: appending a letter shifts the
   * value one base-26 place and adds the letter's digit. Any character is
   * accepted, as in the program; the empty label is 0.
   */
  function LabelValue(s: string): int {
    if s == [] then 0 else 26 * LabelValue(s[..|s| - 1]) + DigitValue(s[|s| - 1])
  }

  /** The label of column `n`; the empty label for 0. */
  function ColumnLabel(n: nat): string {
    if n == 0 then [] else ColumnLabel((n - 1) / 26) + [('A' as int + (n - 1) % 26) as char]
  }

  /**
   * GetColumnNumber: scans the label from its last character to its first,
   * keeping the value of the suffix already read and the place value of the
   * next character.
   */
  method GetColumnNumber(columnLetter: string) returns (columnNumber: int)
    ensures columnNumber == LabelValue(columnLetter)
  {
    columnNumber := 0;
    var factor := 1;
    var i := |columnLetter| - 1;
    while i >= 0
      invariant -1 <= i < |columnLetter|
      invariant columnNumber == LabelValue(columnLetter[i + 1..])
      invariant factor == Pow26(|columnLetter| - 1 - i)
    {
      PrependDigit(columnLetter[i], columnLetter[i + 1..]);
      assert columnLetter[i..] == [columnLetter[i]] + columnLetter[i + 1..];
      columnNumber := columnNumber + DigitValue(columnLetter[i]) * factor;
      factor := factor * 26;
      i := i - 1;
    }
    assert columnLetter[0..] == columnLetter;
  }

  /** Reading right to left: a leading letter contributes its digit times 26^(length of the rest). */
  lemma {:induction false} PrependDigit(c: char, t: string)
    ensures LabelValue([c] + t) == DigitValue(c) * Pow26(|t|) + LabelValue(t)
    decreases |t|
  {
    if t == [] {
      assert [c] + t == [c];
      assert [c][..0] == [];
    } else {
      var u := t[..|t| - 1];
      var last := t[|t| - 1];
      assert ([c] + t)[..|t|] == [c] + u;
      assert ([c] + t)[|t|] == last;
      PrependDigit(c, u);
      calc {
        LabelValue([c] + t);
        26 * LabelValue([c] + u) + DigitValue(last);
        26 * (DigitValue(c) * Pow26(|u|) + LabelValue(u)) + DigitValue(last);
        DigitValue(c) * (26 * Pow26(|u|)) + (26 * LabelValue(u) + DigitValue(last));
        DigitValue(c) * Pow26(|t|) + LabelValue(t);
      }
    }
  }

  /** "A" is 1, "Z" is 26, "AA" is 27, "AZ" is 52, "BA" is 53, "ZZ" is 702; the empty label is 0. */
  lemma Examples()
    ensures LabelValue("") == 0
    ensures LabelValue("A") == 1 && LabelValue("E") == 5 && LabelValue("Z") == 26
    ensures LabelValue("AA") == 27 && LabelValue("AZ") == 52 && LabelValue("BA") == 53
    ensures LabelValue("ZZ") == 702 && LabelValue("AAA") == 703
  {
    assert "AA"[..1] == "A";
    assert "AZ"[..1] == "A";
    assert "BA"[..1] == "B";
    assert "ZZ"[..1] == "Z";
    assert "AAA"[..2] == "AA";
    assert "AA"[..1] == "A";
  }

  /** A single uppercase letter is its position in the alphabet. */
  lemma SingleLetter(c: char)
    requires IsUpperLetter(c)
    ensures 1 <= LabelValue([c]) <= 26 && LabelValue([c]) == c as int - 'A' as int + 1
  {
    assert [c][..0] == [];
  }

  /** A two-letter label is 26 times its first letter's value plus its second's. */
  lemma TwoLetters(a: char, b: char)
    requires IsUpperLetter(a) && IsUpperLetter(b)
    ensures LabelValue([a, b]) == 26 * (a as int - 'A' as int + 1) + (b as int - 'A' as int + 1)
    ensures 27 <= LabelValue([a, b]) <= 702
  {
    SingleLetter(a);
    assert [a, b][..1] == [a];
  }

  /** Every non-empty well-formed label names a column of at least 1; the empty one names 0. */
  lemma {:induction false} LabelValuePositive(s: string)
    requires IsUpperLabel(s)
    ensures s == [] ==> LabelValue(s) == 0
    ensures s != [] ==> LabelValue(s) >= 1
    decreases |s|
  {
    if s != [] {
      LabelValuePositive(s[..|s| - 1]);
    }
  }

  /** ColumnLabel inverts LabelValue on column numbers: it yields a well-formed label of that value. */
  lemma {:induction false} ColumnLabelValue(n: nat)
    ensures IsUpperLabel(ColumnLabel(n))
    ensures LabelValue(ColumnLabel(n)) == n
    decreases n
  {
    if n > 0 {
      var q, d := (n - 1) / 26, (n - 1) % 26;
      ColumnLabelValue(q);
      var s := ColumnLabel(n);
      assert s[..|s| - 1] == ColumnLabel(q);
      assert DigitValue(s[|s| - 1]) == d + 1;
    }
  }

  /** LabelValue inverts ColumnLabel on well-formed labels: the label is recovered from its value. */
  lemma {:induction false} LabelValueColumnLabel(s: string)
    requires IsUpperLabel(s)
    ensures LabelValue(s) >= 0 && ColumnLabel(LabelValue(s)) == s
    decreases |s|
  {
    LabelValuePositive(s);
    if s != [] {
      var u, c := s[..|s| - 1], s[|s| - 1];
      LabelValueColumnLabel(u);
      var v, d := LabelValue(u), DigitValue(c);
      assert 1 <= d <= 26;
      assert (26 * v + d - 1) / 26 == v && (26 * v + d - 1) % 26 == d - 1;
      assert s == u + [c];
    }
  }

  /** Distinct well-formed labels name distinct columns. */
  lemma LabelValueInjective(s: string, t: string)
    requires IsUpperLabel(s) && IsUpperLabel(t)
    requires LabelValue(s) == LabelValue(t)
    ensures s == t
  {
    LabelValueColumnLabel(s);
    LabelValueColumnLabel(t);
  }
}
