/** The string formatting the backend relies on: `%u`/`%llu` (unsigned
    decimal), `%lx` (lower-case hexadecimal, no prefix) and `strcasecmp`
    equality, together with the parsers that invert them. */
module Text {
  import opened Options

  /** The digit character for `d`, lower-case for 10..15 as `%x` prints it. */
  function DigitChar(d: nat): (c: char)
    requires d < 16
  {
    if d < 10 then ('0' as int + d) as char else ('a' as int + d - 10) as char
  }

  /** The value of a digit character; 16 for anything that is not one. */
  function DigitValue(c: char): (v: nat)
    ensures v <= 16
  {
    if '0' <= c <= '9' then c as int - '0' as int
    else if 'a' <= c <= 'f' then c as int - 'a' as int + 10
    else 16
  }

  lemma DigitCharValue(d: nat)
    requires d < 16
    ensures DigitValue(DigitChar(d)) == d
  {
  }

  predicate IsDigitIn(c: char, base: nat)
  {
    DigitValue(c) < base
  }

  predicate AllDigits(s: string, base: nat)
  {
    forall i :: 0 <= i < |s| ==> IsDigitIn(s[i], base)
  }

  /** `n` written in `base` without leading zeros ("0" for zero). */
  function Digits(n: nat, base: nat): (s: string)
    requires base == 10 || base == 16
    ensures |s| >= 1
    decreases n
  {
    if n < base then [DigitChar(n)] else Digits(n / base, base) + [DigitChar(n % base)]
  }

  lemma {:induction false} DigitsAreDigits(n: nat, base: nat)
    requires base == 10 || base == 16
    ensures AllDigits(Digits(n, base), base)
    decreases n
  {
    DigitCharValue(n % base);
    if n >= base {
      DigitsAreDigits(n / base, base);
    }
  }

  /** The value of a string of digits, read most significant first. */
  function DigitsValue(s: string, base: nat): (r: nat)
    decreases |s|
  {
    if s == [] then 0
    else DigitsValue(s[..|s| - 1], base) * base + DigitValue(s[|s| - 1])
  }

  /** Parses a nonempty string of digits in `base`. */
  function ParseDigits(s: string, base: nat): (r: Option<nat>)
    ensures r.Some? <==> s != [] && AllDigits(s, base)
  {
    if s != [] && AllDigits(s, base) then Some(DigitsValue(s, base)) else None
  }

  lemma {:induction false} DigitsValueOfDigits(n: nat, base: nat)
    requires base == 10 || base == 16
    ensures DigitsValue(Digits(n, base), base) == n
    decreases n
  {
    if n < base {
      DigitCharValue(n);
      assert Digits(n, base)[..0] == [];
    } else {
      assert n / base < n;
      var s := Digits(n, base);
      DigitCharValue(n % base);
      assert s[..|s| - 1] == Digits(n / base, base);
      DigitsValueOfDigits(n / base, base);
    }
  }

  /** Printing a number and parsing it back gives the number. */
  lemma DigitsRoundTrip(n: nat, base: nat)
    requires base == 10 || base == 16
    ensures ParseDigits(Digits(n, base), base) == Some(n)
  {
    DigitsAreDigits(n, base);
    DigitsValueOfDigits(n, base);
  }

  /** `%u` / `%llu` */
  function Decimal(n: nat): (s: string)
    ensures |s| >= 1
  {
    Digits(n, 10)
  }

  /** `%lx` */
  function Hex(n: nat): (s: string)
    ensures |s| >= 1
  {
    Digits(n, 16)
  }

  /** A decimal rendering is made of decimal digits only. */
  lemma DecimalDigits(n: nat)
    ensures AllDigits(Decimal(n), 10)
  {
    DigitsAreDigits(n, 10);
  }

  function ParseDecimal(s: string): (r: Option<nat>)
  {
    ParseDigits(s, 10)
  }

  function ParseHex(s: string): (r: Option<nat>)
  {
    ParseDigits(s, 16)
  }

  /** A decimal rendering reads back as the number it renders, so distinct
      numbers have distinct renderings. */
  lemma DecimalRoundTrip(n: nat)
    ensures ParseDecimal(Decimal(n)) == Some(n)
  {
    DigitsRoundTrip(n, 10);
  }

  lemma HexRoundTrip(n: nat)
    ensures ParseHex(Hex(n)) == Some(n)
  {
    DigitsRoundTrip(n, 16);
  }

  lemma DecimalInjective(a: nat, b: nat)
    ensures Decimal(a) == Decimal(b) <==> a == b
  {
    DecimalRoundTrip(a);
    DecimalRoundTrip(b);
  }

  /** Zero is printed, as "0", never as the empty string. */
  lemma DecimalZero()
    ensures Decimal(0) == "0"
  {
  }

  /** `tolower` in the C locale. */
  function LowerAscii(c: char): (r: char)
  {
    if 'A' <= c <= 'Z' then (c as int - 'A' as int + 'a' as int) as char else c
  }

  function Lower(s: string): (r: string)
    ensures |r| == |s|
    ensures forall i :: 0 <= i < |s| ==> r[i] == LowerAscii(s[i])
  {
    seq(|s|, i requires 0 <= i < |s| => LowerAscii(s[i]))
  }

  /** `strcasecmp(a, b) == 0`: walk both strings comparing lower-cased
      characters until one ends. */
  function CaseEqual(a: string, b: string): (r: bool)
    decreases |a|
  {
    if a == [] || b == [] then a == b
    else LowerAscii(a[0]) == LowerAscii(b[0]) && CaseEqual(a[1..], b[1..])
  }

  /** `strcasecmp` equality is equality after lower-casing. */
  lemma {:induction false} CaseEqualIsLowerEqual(a: string, b: string)
    ensures CaseEqual(a, b) <==> Lower(a) == Lower(b)
    decreases |a|
  {
    if a != [] && b != [] {
      CaseEqualIsLowerEqual(a[1..], b[1..]);
      assert Lower(a) == [LowerAscii(a[0])] + Lower(a[1..]);
      assert Lower(b) == [LowerAscii(b[0])] + Lower(b[1..]);
      if Lower(a) == Lower(b) {
        assert Lower(a)[0] == Lower(b)[0];
        assert Lower(a)[1..] == Lower(b)[1..];
      }
    }
  }

  /** The identity sentinel: old implementations return "Unknown", recent
      ones "unknown". */
  predicate IsUnknown(s: string)
  {
    CaseEqual(s, "Unknown")
  }

  /** A string is the sentinel exactly when it lower-cases to "unknown". */
  lemma UnknownMeansLowerUnknown(s: string)
    ensures IsUnknown(s) <==> Lower(s) == "unknown"
  {
    CaseEqualIsLowerEqual(s, "Unknown");
    assert Lower("Unknown") == "unknown";
  }

  /** Position of the first `c` in `s` (|s| if there is none). */
  function IndexOf(s: string, c: char): (i: nat)
    ensures i <= |s|
    ensures i < |s| ==> s[i] == c
  {
    if s == [] then 0 else if s[0] == c then 0 else 1 + IndexOf(s[1..], c)
  }

  /** In a run of digits followed by a separator that is not a digit, the
      first separator is the one right after the digits. */
  lemma {:induction false} IndexOfAfterDigits(d: string, rest: string, c: char)
    requires AllDigits(d, 10) && DigitValue(c) == 16 && rest != [] && rest[0] == c
    ensures IndexOf(d + rest, c) == |d|
    decreases |d|
  {
    if d == [] {
      assert d + rest == rest;
    } else {
      assert (d + rest)[0] == d[0];
      assert (d + rest)[1..] == d[1..] + rest;
      IndexOfAfterDigits(d[1..], rest, c);
    }
  }
}
