/**
  The parts of PHP's `sprintf` that the listing line uses: `%d` (a decimal
  integer), a field width (`%1s`, `%10d`: right-justified with spaces, never
  truncated) and `%s`.
 */
module Format {
  import opened Wrappers

  predicate IsDigit(c: char) {
    '0' <= c <= '9'
  }

  predicate AllDigits(s: string) {
    forall k :: 0 <= k < |s| ==> IsDigit(s[k])
  }

  function DigitChar(d: nat): (c: char)
    requires d < 10
    ensures IsDigit(c) && c as int - '0' as int == d
  {
    ('0' as int + d) as char
  }

  /** The decimal digits of n, most significant first, with no leading zero. */
  function Digits(n: nat): (s: string)
    ensures |s| >= 1 && AllDigits(s)
    ensures s[0] == '0' ==> s == "0"
    ensures s == "0" <==> n == 0
  {
    if n < 10 then [DigitChar(n)] else Digits(n / 10) + [DigitChar(n % 10)]
  }

  /** The number a string of decimal digits denotes (the reading side of Digits). */
  function DigitsValue(s: string): nat
    requires AllDigits(s)
  {
    if s == [] then 0 else 10 * DigitsValue(s[..|s| - 1]) + (s[|s| - 1] as int - '0' as int)
  }

  lemma {:induction false} DigitsRoundTrip(n: nat)
    ensures DigitsValue(Digits(n)) == n
  {
    if n >= 10 {
      var s := Digits(n);
      assert s[..|s| - 1] == Digits(n / 10);
      DigitsRoundTrip(n / 10);
    }
  }

  /** `%d` without a width: an optional minus sign, then the digits of the magnitude with no leading zero. */
  function Decimal(i: int): (s: string)
    ensures |s| >= 1 && s[0] != ' '
    ensures s[0] == '-' <==> i < 0
    ensures AllDigits(s[1..])
    ensures var magnitude := if i < 0 then s[1..] else s;
      |magnitude| >= 1 && (magnitude[0] == '0' ==> magnitude == "0")
  {
    if i < 0 then "-" + Digits(-i) else Digits(i)
  }

  /** Reads back an optional minus sign followed by at least one digit. */
  function ParseDecimal(s: string): Option<int> {
    if |s| >= 2 && s[0] == '-' && AllDigits(s[1..]) then Some(-(DigitsValue(s[1..]) as int))
    else if |s| >= 1 && AllDigits(s) then Some(DigitsValue(s))
    else None
  }

  lemma DecimalRoundTrip(i: int)
    ensures ParseDecimal(Decimal(i)) == Some(i)
  {
    var s := Decimal(i);
    if i < 0 {
      assert s[1..] == Digits(-i);
      DigitsRoundTrip(-i);
    } else {
      DigitsRoundTrip(i);
    }
  }

  function Spaces(n: nat): (r: string)
    ensures |r| == n && forall k :: 0 <= k < n ==> r[k] == ' '
  {
    seq(n, _ => ' ')
  }

  /** A `%<width>s` or `%<width>d` field: s right-justified in at least width characters. */
  function PadLeft(s: string, width: nat): (r: string)
    ensures |r| == if |s| < width then width else |s|
    ensures r[|r| - |s|..] == s
    ensures forall k :: 0 <= k < |r| - |s| ==> r[k] == ' '
  {
    if |s| < width then Spaces(width - |s|) + s else s
  }

  /** The field with its padding removed: the longest suffix that does not start with a space. */
  function TrimLeft(s: string): (r: string)
    ensures |r| <= |s| && r == s[|s| - |r|..]
    ensures r == [] || r[0] != ' '
    ensures forall k :: 0 <= k < |s| - |r| ==> s[k] == ' '
  {
    if s != [] && s[0] == ' ' then TrimLeft(s[1..]) else s
  }

  /** Padding is undone by trimming, as long as the padded text does not itself start with a space. */
  lemma TrimPadLeft(s: string, width: nat)
    requires s == [] || s[0] != ' '
    ensures TrimLeft(PadLeft(s, width)) == s
  {
  }

  /**
    The listing line: the flag right-justified in one column, a space, the size
    right-justified in ten columns, a space, the date text, a space and the
    basename (the format `%1s %10d %s %s`).
   */
  function LineFormat(flag: string, size: int, datetime: string, basename: string): string {
    PadLeft(flag, 1) + " " + PadLeft(Decimal(size), 10) + " " + datetime + " " + basename
  }

  /** The `%1s` column: a one-character flag as it is, the empty flag as one space. */
  lemma FlagField(flag: string)
    requires |flag| <= 1
    ensures PadLeft(flag, 1) == if flag == "" then " " else flag
  {
  }

  /**
    The `%10d` column: ten characters, or as many as the number needs (never
    truncated), and it reads back as the number once the padding is removed.
   */
  lemma SizeField(size: int)
    ensures var column := PadLeft(Decimal(size), 10);
      && |column| == (if |Decimal(size)| < 10 then 10 else |Decimal(size)|)
      && ParseDecimal(TrimLeft(column)) == Some(size)
  {
    TrimPadLeft(Decimal(size), 10);
    DecimalRoundTrip(size);
  }
}
