/**
 * The text operations behind the ledger's files: Python's `str.split` and
 * `str.join` on one separator character, `str.strip`, and the decimal text
 * of integers (`str(int)`) and of cent-exact amounts (`str(float)`).
 */
module Text {
  import opened Wrappers

  /** The characters Python's `str.strip()` removes (`str.isspace`). */
  predicate IsSpace(c: char)
  {
    var n := c as int;
    || n == 0x20 || 0x09 <= n <= 0x0d || 0x1c <= n <= 0x1f
    || n == 0x85 || n == 0xa0 || n == 0x1680 || 0x2000 <= n <= 0x200a
    || n == 0x2028 || n == 0x2029 || n == 0x202f || n == 0x205f || n == 0x3000
  }

  /** A decimal digit, `0` to `9`. */
  predicate IsDigit(c: char)
  {
    '0' <= c <= '9'
  }

  /** Every character of `s` is a decimal digit (true of the empty text). */
  predicate AllDigits(s: string)
  {
    forall i :: 0 <= i < |s| ==> IsDigit(s[i])
  }

  /** The digit character for a value below ten. */
  function DigitChar(d: nat): (c: char)
    requires d < 10
    ensures IsDigit(c)
    ensures DigitValue(c) == d
  {
    (('0' as int) + d) as char
  }

  /** The value of a digit character. */
  function DigitValue(c: char): nat
    requires IsDigit(c)
  {
    (c as int) - ('0' as int)
  }

  // ---------------------------------------------------------------- split / join

  /** `sep.join(parts)`. */
  function Join(parts: seq<string>, sep: char): string
  {
    if |parts| == 0 then ""
    else if |parts| == 1 then parts[0]
    else parts[0] + [sep] + Join(parts[1..], sep)
  }

  /** `s.split(sep)`: at least one part, and no part holds the separator. */
  function Split(s: string, sep: char): (parts: seq<string>)
    ensures |parts| >= 1
    ensures forall i :: 0 <= i < |parts| ==> sep !in parts[i]
  {
    if |s| == 0 then [""]
    else
      var rest := Split(s[1..], sep);
      if s[0] == sep then [""] + rest
      else [[s[0]] + rest[0]] + rest[1..]
  }

  /** A text without the separator splits into itself alone. */
  lemma {:induction false} SplitNoSep(f: string, sep: char)
    requires sep !in f
    ensures Split(f, sep) == [f]
  {
    if |f| > 0 {
      SplitNoSep(f[1..], sep);
      assert [f[0]] + f[1..] == f;
    }
  }

  /** A leading separator-free field is split off as the first part. */
  lemma {:induction false} SplitField(f: string, sep: char, rest: string)
    requires sep !in f
    ensures Split(f + [sep] + rest, sep) == [f] + Split(rest, sep)
  {
    var s := f + [sep] + rest;
    if |f| == 0 {
      assert s[1..] == rest;
    } else {
      assert s[1..] == f[1..] + [sep] + rest;
      SplitField(f[1..], sep, rest);
      assert [f[0]] + f[1..] == f;
    }
  }

  /** Joining separator-free fields and splitting the result gives the fields back. */
  lemma {:induction false} SplitJoin(parts: seq<string>, sep: char)
    requires |parts| >= 1
    requires forall i :: 0 <= i < |parts| ==> sep !in parts[i]
    ensures Split(Join(parts, sep), sep) == parts
  {
    if |parts| == 1 {
      SplitNoSep(parts[0], sep);
    } else {
      SplitField(parts[0], sep, Join(parts[1..], sep));
      SplitJoin(parts[1..], sep);
      assert [parts[0]] + parts[1..] == parts;
    }
  }

  /** Splitting and joining again gives back any text. */
  lemma {:induction false} JoinSplit(s: string, sep: char)
    ensures Join(Split(s, sep), sep) == s
  {
    if |s| > 0 {
      var rest := Split(s[1..], sep);
      JoinSplit(s[1..], sep);
      if s[0] == sep {
        assert ([""] + rest)[1..] == rest;
      } else {
        var parts := [[s[0]] + rest[0]] + rest[1..];
        if |rest| == 1 {
          assert Join(parts, sep) == [s[0]] + rest[0];
        } else {
          assert parts[1..] == rest[1..];
          assert Join(rest, sep) == rest[0] + [sep] + Join(rest[1..], sep);
        }
        assert [s[0]] + s[1..] == s;
      }
    }
  }

  /** Where the joined text starts and ends, for use by `Strip`. */
  lemma {:induction false} JoinEnds(parts: seq<string>, sep: char)
    requires |parts| >= 2 && |parts[|parts| - 1]| >= 1
    ensures var s := Join(parts, sep);
      && |s| >= 1
      && s[0] == (if |parts[0]| > 0 then parts[0][0] else sep)
      && s[|s| - 1] == parts[|parts| - 1][|parts[|parts| - 1]| - 1]
  {
    if |parts| > 2 {
      JoinEnds(parts[1..], sep);
    }
  }

  // ---------------------------------------------------------------- strip

  /** `s.lstrip()`: drops only the spaces at the start, and stops at the first other character. */
  function StripStart(s: string): (r: string)
    ensures |r| <= |s| && r == s[|s| - |r|..]
    ensures forall i :: 0 <= i < |s| - |r| ==> IsSpace(s[i])
    ensures |r| == 0 || !IsSpace(r[0])
  {
    if |s| > 0 && IsSpace(s[0]) then StripStart(s[1..]) else s
  }

  /** `s.rstrip()`: drops only the spaces at the end, and stops at the last other character. */
  function StripEnd(s: string): (r: string)
    ensures |r| <= |s| && r == s[..|r|]
    ensures forall i :: |r| <= i < |s| ==> IsSpace(s[i])
    ensures |r| == 0 || !IsSpace(r[|r| - 1])
  {
    if |s| > 0 && IsSpace(s[|s| - 1]) then StripEnd(s[..|s| - 1]) else s
  }

  /** `r` is the slice of `s` from `k`, with only spaces around it. */
  predicate StrippedAt(s: string, r: string, k: nat)
  {
    k + |r| <= |s| && r == s[k..k + |r|]
    && (forall i :: 0 <= i < k ==> IsSpace(s[i]))
    && (forall i :: k + |r| <= i < |s| ==> IsSpace(s[i]))
  }

  /** `s.strip()`: a slice of `s` with only spaces removed around it, and no space at either end. */
  function Strip(s: string): (r: string)
    ensures |r| <= |s|
    ensures exists k: nat :: StrippedAt(s, r, k)
    ensures |r| == 0 || (!IsSpace(r[0]) && !IsSpace(r[|r| - 1]))
  {
    var t := StripStart(s);
    var r := StripEnd(t);
    StrippedAtSuffix(s, t, r, |s| - |t|);
    r
  }

  /** A prefix of a suffix, each cut off only spaces, is a slice with only spaces around it. */
  lemma StrippedAtSuffix(s: string, t: string, r: string, k: nat)
    requires k <= |s| && t == s[k..] && forall i :: 0 <= i < k ==> IsSpace(s[i])
    requires |r| <= |t| && r == t[..|r|] && forall i :: |r| <= i < |t| ==> IsSpace(t[i])
    ensures StrippedAt(s, r, k)
  {
    forall i | k + |r| <= i < |s| ensures IsSpace(s[i]) {
      assert s[i] == t[i - k];
    }
  }

  /** Stripping a written line (text plus newline) gives back the text when it has no space at its ends. */
  lemma StripLine(s: string)
    requires |s| >= 1 && !IsSpace(s[0]) && !IsSpace(s[|s| - 1])
    ensures Strip(s + "\n") == s
  {
    var line := s + "\n";
    assert line[0] == s[0];
    assert StripStart(line) == line;
    assert IsSpace(line[|line| - 1]);
    assert line[..|line| - 1] == s;
    assert StripEnd(line) == StripEnd(s);
    assert StripEnd(s) == s;
  }

  // ---------------------------------------------------------------- integers

  /** `str(n)` for `n >= 0`: decimal digits, most significant first. */
  function NatText(n: nat): (s: string)
    ensures |s| >= 1 && AllDigits(s)
  {
    if n < 10 then [DigitChar(n)]
    else NatText(n / 10) + [DigitChar(n % 10)]
  }

  /** The number a string of decimal digits denotes. */
  function DigitsValue(s: string): nat
    requires AllDigits(s)
  {
    if |s| == 0 then 0
    else DigitsValue(s[..|s| - 1]) * 10 + DigitValue(s[|s| - 1])
  }

  /** The digits `NatText` writes denote the number written. */
  lemma {:induction false} NatTextValue(n: nat)
    ensures DigitsValue(NatText(n)) == n
  {
    if n >= 10 {
      NatTextValue(n / 10);
      var s := NatText(n);
      assert s[..|s| - 1] == NatText(n / 10);
    }
  }

  /** `str(n)`: a minus sign exactly for negative numbers, and a digit at the end. */
  function IntText(n: int): (s: string)
    ensures |s| >= 1 && IsDigit(s[|s| - 1])
    ensures s[0] == '-' <==> n < 0
  {
    if n < 0 then "-" + NatText(-n) else NatText(n)
  }

  /** The integer text `IntText` writes: an optional minus sign and at least one digit. */
  function ParseInt(s: string): Option<int>
  {
    if |s| > 0 && s[0] == '-' then
      if |s| > 1 && AllDigits(s[1..]) then Some(-(DigitsValue(s[1..]) as int)) else None
    else if |s| > 0 && AllDigits(s) then Some(DigitsValue(s))
    else None
  }

  /** Integers round-trip through their text. */
  lemma IntTextRoundTrip(n: int)
    ensures ParseInt(IntText(n)) == Some(n)
  {
    if n < 0 {
      var digits := NatText(-n);
      var t := "-" + digits;
      assert IntText(n) == t;
      assert t[1..] == digits;
      NatTextValue(-n);
      assert ParseInt(t) == Some(-(DigitsValue(digits) as int));
    } else {
      var digits := NatText(n);
      assert IsDigit(digits[0]);
      NatTextValue(n);
      assert ParseInt(digits) == Some(DigitsValue(digits));
    }
  }

  // ---------------------------------------------------------------- amounts

  /** The fraction digits `str(float)` shows for `r` cents: two, or one when the second is zero. */
  function FractionText(r: nat): (s: string)
    requires r < 100
  {
    if r % 10 == 0 then [DigitChar(r / 10)]
    else [DigitChar(r / 10), DigitChar(r % 10)]
  }

  /**
   * `str(float)` of an amount of `c` cents: sign, whole units, a point and one
   * or two fraction digits (`0.0`, `12.5`, `-0.05`).
   */
  function CentsText(c: int): (s: string)
    ensures |s| >= 3 && IsDigit(s[|s| - 1])
    ensures s[0] == '-' <==> c < 0
  {
    if c < 0 then "-" + UnsignedCentsText(-c) else UnsignedCentsText(c)
  }

  /** The text of `m` cents without a sign: whole units, a point, the fraction digits. */
  function UnsignedCentsText(m: nat): (s: string)
    ensures |s| >= 3 && IsDigit(s[0]) && IsDigit(s[|s| - 1])
  {
    NatText(m / 100) + "." + FractionText(m % 100)
  }

  /** The value of one or two fraction digits, in cents. */
  function FractionValue(f: string): nat
    requires 1 <= |f| <= 2 && AllDigits(f)
  {
    if |f| == 1 then DigitValue(f[0]) * 10
    else DigitValue(f[0]) * 10 + DigitValue(f[1])
  }

  /** Reads back the amount text `CentsText` writes. */
  function ParseCents(s: string): Option<int>
  {
    if |s| > 0 && s[0] == '-' then
      match ParseUnsignedCents(s[1..])
      case Some(m) => Some(-m)
      case None => None
    else ParseUnsignedCents(s)
  }

  /** Whole units, a point, and one or two fraction digits, in cents. */
  function ParseUnsignedCents(body: string): Option<int>
  {
    var parts := Split(body, '.');
    if |parts| != 2 || |parts[0]| == 0 || !AllDigits(parts[0])
       || !(1 <= |parts[1]| <= 2) || !AllDigits(parts[1]) then None
    else Some(DigitsValue(parts[0]) * 100 + FractionValue(parts[1]))
  }

  /** The fraction text of a cent remainder is one or two digits worth that remainder. */
  lemma FractionTextValue(r: nat)
    requires r < 100
    ensures 1 <= |FractionText(r)| <= 2 && AllDigits(FractionText(r))
    ensures FractionValue(FractionText(r)) == r
  {
  }

  /** Digits joined by a point split back at that point into the same two parts. */
  lemma SplitAtPoint(units: string, frac: string)
    requires AllDigits(units) && AllDigits(frac)
    ensures Split(units + "." + frac, '.') == [units, frac]
  {
    assert '.' !in units;
    assert '.' !in frac;
    SplitJoin([units, frac], '.');
    assert Join([units, frac], '.') == units + "." + frac;
  }

  /** `ParseUnsignedCents` once the text is known to split into a whole-unit part and a fraction part. */
  lemma ParseUnsignedParts(body: string, units: string, frac: string)
    requires |units| >= 1 && AllDigits(units)
    requires 1 <= |frac| <= 2 && AllDigits(frac)
    requires Split(body, '.') == [units, frac]
    ensures ParseUnsignedCents(body) == Some(DigitsValue(units) * 100 + FractionValue(frac))
  {
  }

  /** `ParseCents` reads an optional minus sign, then an unsigned amount. */
  lemma ParseCentsSign(neg: bool, body: string, m: int)
    requires ParseUnsignedCents(body) == Some(m)
    requires |body| >= 1 && body[0] != '-'
    ensures ParseCents(if neg then "-" + body else body) == Some(if neg then -m else m)
  {
    if neg {
      assert ("-" + body)[1..] == body;
    }
  }

  /** The unsigned text of an amount reads back as the number of cents. */
  lemma UnsignedCentsRoundTrip(m: nat)
    ensures ParseUnsignedCents(UnsignedCentsText(m)) == Some(m)
  {
    var units, frac := NatText(m / 100), FractionText(m % 100);
    FractionTextValue(m % 100);
    NatTextValue(m / 100);
    SplitAtPoint(units, frac);
    ParseUnsignedParts(units + "." + frac, units, frac);
  }

  /** Cent-exact amounts round-trip through their text. */
  lemma CentsTextRoundTrip(c: int)
    ensures ParseCents(CentsText(c)) == Some(c)
  {
    var m := if c < 0 then -c else c;
    UnsignedCentsRoundTrip(m);
    ParseCentsSign(c < 0, UnsignedCentsText(m), m);
  }
}
