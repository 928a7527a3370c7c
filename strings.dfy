/**
 * Text handling done by the Spreadsheet class itself: giving a file name
 * the workbook extension, and the decimal rendering of a row number that
 * labels the result of a row read.
 */
module Strings {

  const Extension: string := ".xlsx"

  /** Whether `name` ends with the workbook extension. */
  predicate HasExtension(name: string)
  {
    |name| >= |Extension| && name[|name| - |Extension|..] == Extension
  }

  /** Python's `name[-5::]`: the last five characters, or all of a shorter name. */
  function LastFive(name: string): (t: string)
    ensures |t| == if |name| < 5 then |name| else 5
    ensures name == name[..|name| - |t|] + t
  {
    if |name| >= 5 then name[|name| - 5..] else name
  }

  /**
   * The file name a handle is bound to: the name as given when it already
   * ends with the extension, and otherwise the name with the extension
   * appended once.
   */
  function WithExtension(name: string): (r: string)
    ensures HasExtension(r)
    ensures HasExtension(name) ==> r == name
    ensures !HasExtension(name) ==> r == name + Extension
  {
    if LastFive(name) != Extension then name + Extension else name
  }

  /** Normalising a name that is already normalised changes nothing. */
  lemma WithExtensionIdempotent(name: string)
    ensures WithExtension(WithExtension(name)) == WithExtension(name)
  {
  }

  predicate IsDigit(c: char)
  {
    '0' <= c <= '9'
  }

  function DigitChar(d: int): (c: char)
    requires 0 <= d < 10
    ensures IsDigit(c) && c as int - '0' as int == d
  {
    (d + '0' as int) as char
  }

  /** Python's `str(n)` for a natural number: its decimal digits, without leading zeros. */
  function Decimal(n: nat): (s: string)
    ensures |s| >= 1
    ensures forall i :: 0 <= i < |s| ==> IsDigit(s[i])
    ensures s[0] == '0' ==> n == 0 && s == "0"
    decreases n
  {
    if n < 10 then [DigitChar(n)] else Decimal(n / 10) + [DigitChar(n % 10)]
  }

  function DigitValue(c: char): (d: nat)
    requires IsDigit(c)
    ensures d < 10
  {
    c as int - '0' as int
  }

  /** The number a string of decimal digits denotes. */
  function DecimalValue(s: string): (n: nat)
    requires forall i :: 0 <= i < |s| ==> IsDigit(s[i])
  {
    if s == [] then 0 else 10 * DecimalValue(s[..|s| - 1]) + DigitValue(s[|s| - 1])
  }

  /** Reading the decimal rendering of a number gives the number back. */
  lemma {:induction false} DecimalRoundTrip(n: nat)
    ensures DecimalValue(Decimal(n)) == n
    decreases n
  {
    var s := Decimal(n);
    if n >= 10 {
      DecimalRoundTrip(n / 10);
      assert s[..|s| - 1] == Decimal(n / 10);
    }
  }

  /** Different numbers have different renderings, so row labels never collide. */
  lemma DecimalInjective(m: nat, n: nat)
    requires Decimal(m) == Decimal(n)
    ensures m == n
  {
    DecimalRoundTrip(m);
    DecimalRoundTrip(n);
  }
}
