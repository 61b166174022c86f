/** Invoice numbers (app.py:249-256): a fixed point-of-sale prefix "0001-"
    followed by the sequence number in decimal, zero-padded to at least
    eight digits, and the parse that recovers the sequence number from the
    text after the last '-'. */
module Numbering {
  import opened Wrappers

  /** The point-of-sale prefix every number starts with, separator included. */
  const Prefix: string := "0001-"

  /** The minimum number of digits after the prefix (Python's `:08d`). */
  const Width: nat := 8

  predicate IsDigit(c: char) {
    '0' <= c <= '9'
  }

  predicate AllDigits(s: string) {
    forall i :: 0 <= i < |s| ==> IsDigit(s[i])
  }

  function DigitChar(d: nat): (c: char)
    requires d < 10
    ensures IsDigit(c) && DigitValue(c) == d
  {
    ('0' as int + d) as char
  }

  function DigitValue(c: char): nat
    requires IsDigit(c)
  {
    c as int - '0' as int
  }

  function Pow10(k: nat): (p: nat)
    ensures p >= 1
  {
    if k == 0 then 1 else 10 * Pow10(k - 1)
  }

  /** Python's `str(n)` for a non-negative integer: its decimal digits,
      most significant first, without leading zeros ("0" for zero). */
  function Decimal(n: nat): (s: string)
    ensures 1 <= |s| && AllDigits(s)
    ensures |s| > 1 ==> s[0] != '0'
  {
    if n < 10 then [DigitChar(n)] else Decimal(n / 10) + [DigitChar(n % 10)]
  }

  /** The value of a string of decimal digits, most significant first. */
  function DigitsValue(s: string): nat
    requires AllDigits(s)
  {
    if s == [] then 0 else 10 * DigitsValue(s[..|s| - 1]) + DigitValue(s[|s| - 1])
  }

  /** Reading back the decimal rendering of `n` gives `n`. */
  lemma {:induction false} DecimalRoundTrip(n: nat)
    ensures DigitsValue(Decimal(n)) == n
  {
    if n >= 10 {
      var s := Decimal(n);
      assert s[..|s| - 1] == Decimal(n / 10);
      DecimalRoundTrip(n / 10);
    }
  }

  /** The decimal rendering of `n` has at most `k` digits exactly when
      `n < 10^k`. */
  lemma {:induction false} DecimalLength(n: nat, k: nat)
    requires k >= 1
    ensures |Decimal(n)| <= k <==> n < Pow10(k)
  {
    if n >= 10 && k > 1 {
      DecimalLength(n / 10, k - 1);
    }
  }

  /** `DecimalLength` extended to every width: no rendering fits in zero
      digits. */
  lemma DecimalFits(n: nat, width: nat)
    ensures |Decimal(n)| <= width <==> (width >= 1 && n < Pow10(width))
  {
    if width >= 1 {
      DecimalLength(n, width);
    }
  }

  function Zeros(k: nat): (z: string)
    ensures |z| == k && forall i :: 0 <= i < k ==> z[i] == '0'
  {
    seq(k, _ => '0')
  }

  /** Zero digits in front do not change the value of a digit string. */
  lemma {:induction false} LeadingZerosIgnored(k: nat, s: string)
    requires AllDigits(s)
    ensures AllDigits(Zeros(k) + s)
    ensures DigitsValue(Zeros(k) + s) == DigitsValue(s)
  {
    var z := Zeros(k) + s;
    if s == [] {
      assert z == Zeros(k);
      ZerosValue(k);
    } else {
      assert z[..|z| - 1] == Zeros(k) + s[..|s| - 1];
      LeadingZerosIgnored(k, s[..|s| - 1]);
    }
  }

  lemma {:induction false} ZerosValue(k: nat)
    ensures DigitsValue(Zeros(k)) == 0
  {
    if k > 0 {
      assert Zeros(k)[..k - 1] == Zeros(k - 1);
      ZerosValue(k - 1);
    }
  }

  /** Python's `f"{n:0{width}d}"` for a non-negative `n`: the decimal digits
      of `n`, preceded by as many zeros as needed to reach `width`. */
  function Padded(n: nat, width: nat): (s: string)
    ensures AllDigits(s) && |s| >= width && |s| >= 1
    ensures DigitsValue(s) == n
    ensures |s| == width <==> (width >= 1 && n < Pow10(width))
  {
    var d := Decimal(n);
    DecimalRoundTrip(n);
    LeadingZerosIgnored(if |d| < width then width - |d| else 0, d);
    DecimalFits(n, width);
    if |d| < width then Zeros(width - |d|) + d else Zeros(0) + d
  }

  /** The invoice number for sequence number `n` (app.py:256). */
  function FormatNumber(n: nat): (r: string)
    ensures |r| >= |Prefix| + Width && r[..|Prefix|] == Prefix
    ensures AllDigits(r[|Prefix|..]) && DigitsValue(r[|Prefix|..]) == n
    ensures |r| == |Prefix| + Width <==> n < 100000000
    ensures |r| > |Prefix| + Width ==> r[|Prefix|] != '0'
  {
    assert Pow10(Width) == 100000000;
    var r := Prefix + Padded(n, Width);
    assert r[|Prefix|..] == Padded(n, Width);
    r
  }

  /** Python's `s.split('-')[-1]`: the text after the last '-' of `s`, or
      all of `s` when it has none. */
  function LastSegment(s: string): (r: string)
    ensures |r| <= |s|
  {
    if s == [] then []
    else if s[|s| - 1] == '-' then []
    else LastSegment(s[..|s| - 1]) + [s[|s| - 1]]
  }

  /** `LastSegment(s)` is a dash-free tail of `s`, preceded by a '-'
      whenever it is not all of `s`. */
  lemma {:induction false} LastSegmentSpec(s: string)
    ensures var r := LastSegment(s);
            && r == s[|s| - |r|..]
            && (forall i :: 0 <= i < |r| ==> r[i] != '-')
            && (|r| < |s| ==> s[|s| - |r| - 1] == '-')
  {
    if s != [] && s[|s| - 1] != '-' {
      var init := s[..|s| - 1];
      LastSegmentSpec(init);
      var r := LastSegment(init);
      assert r == init[|init| - |r|..];
      assert LastSegment(s) == r + [s[|s| - 1]];
      assert r + [s[|s| - 1]] == s[|s| - |r| - 1..];
    }
  }

  /** Python's `int(t)` restricted to what it accepts here: a non-empty run
      of ASCII digits; anything else raises. */
  function ParseInt(t: string): (r: Option<nat>)
    ensures r.Some? <==> (|t| > 0 && AllDigits(t))
    ensures r.Some? ==> r.value == DigitsValue(t)
  {
    if |t| > 0 && AllDigits(t) then Some(DigitsValue(t)) else None
  }

  /** The sequence number a stored invoice number carries (app.py:251): the
      integer after its last '-', or 0 when it has no '-'. `None` is the
      `ValueError` that `int` raises on a suffix that is not a number. */
  function ParseSuffix(number: string): (r: Option<nat>)
    ensures '-' !in number ==> r == Some(0)
    ensures '-' in number ==>
              var t := LastSegment(number);
              && (r.Some? <==> |t| > 0 && AllDigits(t))
              && (r.Some? ==> r.value == DigitsValue(t))
  {
    if '-' in number then ParseInt(LastSegment(number)) else Some(0)
  }

  /** The segment after the last '-' of a prefix ending in '-' followed by a
      dash-free text is that text. */
  lemma {:induction false} LastSegmentAfterSeparator(p: string, d: string)
    requires |p| > 0 && p[|p| - 1] == '-'
    requires forall i :: 0 <= i < |d| ==> d[i] != '-'
    ensures LastSegment(p + d) == d
  {
    if d == [] {
      assert p + d == p;
    } else {
      var s := p + d;
      assert s[..|s| - 1] == p + d[..|d| - 1];
      LastSegmentAfterSeparator(p, d[..|d| - 1]);
    }
  }

  /** Parsing the suffix of a formatted number gives back the sequence
      number it was formatted from. */
  lemma {:induction false} ParseFormatted(n: nat)
    ensures ParseSuffix(FormatNumber(n)) == Some(n)
  {
    var r := FormatNumber(n);
    var d := r[|Prefix|..];
    assert r == Prefix + d;
    assert r[4] == '-';
    forall i | 0 <= i < |d| ensures d[i] != '-' {
      assert IsDigit(d[i]);
    }
    LastSegmentAfterSeparator(Prefix, d);
  }

  /** Distinct sequence numbers are formatted as distinct invoice numbers. */
  lemma {:induction false} FormatInjective(a: nat, b: nat)
    ensures FormatNumber(a) == FormatNumber(b) <==> a == b
  {
    if FormatNumber(a) == FormatNumber(b) {
      ParseFormatted(a);
      ParseFormatted(b);
    }
  }

  /** The first number issued: sequence number 1. */
  lemma FirstNumber()
    ensures FormatNumber(1) == "0001-00000001"
  {
    assert Decimal(1) == "1";
    assert Zeros(7) == "0000000";
  }
}
