/** Decimal rendering and parsing of integers, padding and joining, as the
    source uses them through `toString`, `padStart` and `join`. */
module Strings {
  import opened Wrappers

  predicate IsDigit(c: char)
  {
    '0' <= c <= '9'
  }

  predicate AllDigits(s: string)
  {
    forall i :: 0 <= i < |s| ==> IsDigit(s[i])
  }

  function DigitChar(d: int): (c: char)
    requires 0 <= d < 10
    ensures IsDigit(c) && DigitValue(c) == d
  {
    ('0' as int + d) as char
  }

  function DigitValue(c: char): int
    requires IsDigit(c)
  {
    c as int - '0' as int
  }

  /** The value of a string of decimal digits, most significant first. */
  function DigitsValue(s: string): nat
    requires AllDigits(s)
  {
    if s == [] then 0 else DigitsValue(s[..|s| - 1]) * 10 + DigitValue(s[|s| - 1])
  }

  function Pow10(k: nat): (p: nat)
    ensures p >= 1
  {
    if k == 0 then 1 else 10 * Pow10(k - 1)
  }

  /** `n.toString()` for a non-negative integer: shortest decimal form. */
  function NatToString(n: nat): (s: string)
    ensures 1 <= |s| && AllDigits(s)
    ensures |s| > 1 ==> s[0] != '0'
  {
    if n < 10 then [DigitChar(n)] else NatToString(n / 10) + [DigitChar(n % 10)]
  }

  /** `n.toString()` for any integer: a minus sign before the magnitude. */
  function IntToString(n: int): (s: string)
    ensures n >= 0 ==> s == NatToString(n)
    ensures n < 0 ==> s == "-" + NatToString(-n)
  {
    if n < 0 then "-" + NatToString(-n) else NatToString(n)
  }

  /** Exactly `k` digits of `n` (the lowest `k`), with leading zeros. */
  function FixedDigits(n: nat, k: nat): (s: string)
    ensures |s| == k && AllDigits(s)
  {
    if k == 0 then [] else FixedDigits(n / 10, k - 1) + [DigitChar(n % 10)]
  }

  /** JavaScript's `s.padStart(width, fill)`. */
  function PadStart(s: string, width: nat, fill: char): (r: string)
    ensures |s| >= width ==> r == s
    ensures |s| < width ==> |r| == width
    ensures r[|r| - |s|..] == s
    ensures forall i :: 0 <= i < |r| - |s| ==> r[i] == fill
  {
    if |s| >= width then s else seq(width - |s|, _ => fill) + s
  }

  /** JavaScript's `parts.join(sep)`. */
  function Join(parts: seq<string>, sep: string): string
  {
    if |parts| == 0 then ""
    else if |parts| == 1 then parts[0]
    else parts[0] + sep + Join(parts[1..], sep)
  }

  /** JavaScript's `s.split(sep)` for a one-character separator: the pieces between
      separators, so there is always one piece more than there are separators. */
  function Split(s: string, sep: char): (parts: seq<string>)
    ensures |parts| >= 1
    ensures forall i :: 0 <= i < |parts| ==> sep !in parts[i]
  {
    if |s| == 0 then [""]
    else
      var rest := Split(s[1..], sep);
      if s[0] == sep then [""] + rest else [[s[0]] + rest[0]] + rest[1..]
  }

  lemma {:induction false} SplitWithoutSeparator(s: string, sep: char)
    requires sep !in s
    ensures Split(s, sep) == [s]
  {
    if |s| > 0 {
      SplitWithoutSeparator(s[1..], sep);
      assert [s[0]] + s[1..] == s;
    }
  }

  /** A text holding the separator splits into at least two parts. */
  lemma {:induction false} SplitWithSeparator(s: string, sep: char)
    requires sep in s
    ensures |Split(s, sep)| >= 2
  {
    if s[0] != sep {
      assert sep in s[1..];
      SplitWithSeparator(s[1..], sep);
    }
  }

  /** Splitting at the first separator. */
  lemma {:induction false} SplitAtFirst(a: string, sep: char, b: string)
    requires sep !in a
    ensures Split(a + [sep] + b, sep) == [a] + Split(b, sep)
  {
    var s := a + [sep] + b;
    if |a| == 0 {
      assert s[1..] == b;
    } else {
      assert s[1..] == a[1..] + [sep] + b;
      SplitAtFirst(a[1..], sep, b);
      assert [a[0]] + a[1..] == a;
    }
  }

  /** Splitting what `Join` glued with a one-character separator gives back the
      parts, when none of them contains the separator. */
  lemma {:induction false} SplitJoin(parts: seq<string>, sep: char)
    requires |parts| >= 1
    requires forall i :: 0 <= i < |parts| ==> sep !in parts[i]
    ensures Split(Join(parts, [sep]), sep) == parts
  {
    if |parts| == 1 {
      SplitWithoutSeparator(parts[0], sep);
    } else {
      SplitJoin(parts[1..], sep);
      SplitAtFirst(parts[0], sep, Join(parts[1..], [sep]));
      assert [parts[0]] + parts[1..] == parts;
    }
  }

  /** The longest prefix of decimal digits. */
  function LeadingDigits(s: string): (d: string)
    ensures AllDigits(d) && d <= s
    ensures |d| < |s| ==> !IsDigit(s[|d|])
  {
    if |s| == 0 || !IsDigit(s[0]) then [] else [s[0]] + LeadingDigits(s[1..])
  }

  lemma {:induction false} LeadingDigitsOfDigits(s: string)
    requires AllDigits(s)
    ensures LeadingDigits(s) == s
  {
    if |s| > 0 {
      LeadingDigitsOfDigits(s[1..]);
      assert [s[0]] + s[1..] == s;
    }
  }

  /** JavaScript's `parseInt(s)` read as decimal: leading spaces skipped, an
      optional sign, then the longest run of decimal digits; None (NaN) when
      there is no digit. The text comes from a number box, so the "0x" prefix
      that would switch `parseInt` to hexadecimal does not occur. */
  function ParseInt(s: string): (r: Option<int>)
  {
    if |s| > 0 && s[0] == ' ' then ParseInt(s[1..])
    else if |s| > 0 && (s[0] == '-' || s[0] == '+') then
      var d := LeadingDigits(s[1..]);
      if d == [] then None
      else
        var v: int := DigitsValue(d);
        Some(if s[0] == '-' then -v else v)
    else
      var d := LeadingDigits(s);
      if d == [] then None else Some(DigitsValue(d))
  }

  /** `parseInt` reads back a decimal rendering, and stops at the first non-digit. */
  lemma ParseIntOfNat(n: nat, rest: string)
    requires rest == [] || !IsDigit(rest[0])
    ensures ParseInt(NatToString(n) + rest) == Some(n)
  {
    var s := NatToString(n);
    assert IsDigit(s[0]);
    LeadingDigitsOfDigits(s);
    LeadingDigitsAppend(s, rest);
    NatToStringValue(n);
  }

  lemma {:induction false} LeadingDigitsAppend(s: string, rest: string)
    requires AllDigits(s)
    requires rest == [] || !IsDigit(rest[0])
    ensures LeadingDigits(s + rest) == s
  {
    if |s| == 0 {
      assert s + rest == rest;
    } else {
      assert (s + rest)[1..] == s[1..] + rest;
      LeadingDigitsAppend(s[1..], rest);
      assert [s[0]] + s[1..] == s;
    }
  }

  /** JavaScript's `Number(s)` on the strings it is given here: the empty string is 0
      and a run of decimal digits is its value; anything else is read as NaN (None). */
  function NumberOf(s: string): Option<int>
  {
    if AllDigits(s) then Some(DigitsValue(s)) else None
  }

  /** Reading back a decimal rendering gives the number. */
  lemma {:induction false} NatToStringValue(n: nat)
    ensures DigitsValue(NatToString(n)) == n
  {
    var s := NatToString(n);
    if n >= 10 {
      NatToStringValue(n / 10);
      assert s[..|s| - 1] == NatToString(n / 10);
    }
  }

  /** The decimal rendering of a number below `10^k` has at most `k` digits. */
  lemma {:induction false} NatToStringLength(n: nat, k: nat)
    requires 1 <= k && n < Pow10(k)
    ensures |NatToString(n)| <= k
  {
    if n >= 10 {
      NatToStringLength(n / 10, k - 1);
    }
  }

  lemma {:induction false} FixedDigitsOfZero(k: nat)
    ensures FixedDigits(0, k) == seq(k, _ => '0')
  {
    if k > 0 {
      FixedDigitsOfZero(k - 1);
    }
  }

  lemma PadStartAppend(x: string, w: nat, c: char, fill: char)
    requires |x| <= w
    ensures PadStart(x + [c], w + 1, fill) == PadStart(x, w, fill) + [c]
  {
    var l := PadStart(x + [c], w + 1, fill);
    var r := PadStart(x, w, fill) + [c];
    assert |l| == |r|;
    forall i | 0 <= i < |l| ensures l[i] == r[i] {
      if i < w + 1 - |x| - 1 {
      } else if i < w {
        assert l[i] == (x + [c])[i - (w - |x|)];
      }
    }
  }

  /** Zero-padding the shortest rendering to width `k` gives the fixed-width digits. */
  lemma {:induction false} PadStartIsFixedDigits(n: nat, k: nat)
    requires 1 <= k && n < Pow10(k)
    ensures PadStart(NatToString(n), k, '0') == FixedDigits(n, k)
  {
    if n < 10 {
      PadStartOneDigit(n, k);
    } else {
      DropLowDigit(n, k);
      PadStartIsFixedDigits(n / 10, k - 1);
      PadStartStep(n, k);
    }
  }

  /** Padding the rendering of `n` is padding that of `n / 10`, then the last digit. */
  lemma PadStartStep(n: nat, k: nat)
    requires 10 <= n && 2 <= k && n / 10 < Pow10(k - 1)
    ensures PadStart(NatToString(n), k, '0') == PadStart(NatToString(n / 10), k - 1, '0') + [DigitChar(n % 10)]
  {
    NatToStringLength(n / 10, k - 1);
    PadStartAppend(NatToString(n / 10), k - 1, DigitChar(n % 10), '0');
  }

  lemma PadStartOneDigit(n: nat, k: nat)
    requires 1 <= k && n < 10
    ensures PadStart(NatToString(n), k, '0') == FixedDigits(n, k)
  {
    var d := DigitChar(n);
    FixedDigitsOfZero(k - 1);
    assert NatToString(n) == [d];
    assert n % 10 == n && n / 10 == 0;
    assert FixedDigits(n, k) == FixedDigits(0, k - 1) + [d];
    assert PadStart([d], k, '0') == seq(k - 1, _ => '0') + [d];
  }

  /** Dropping the lowest digit of a number of at least two digits below `10^k`. */
  lemma DropLowDigit(n: nat, k: nat)
    requires 1 <= k && 10 <= n < Pow10(k)
    ensures 1 <= k - 1 && n / 10 < Pow10(k - 1)
  {
    assert Pow10(k) == 10 * Pow10(k - 1);
    assert Pow10(0) == 1;
  }

  /** Reading back fixed-width digits gives the number modulo `10^k`. */
  lemma {:induction false} FixedDigitsValue(n: nat, k: nat)
    requires n < Pow10(k)
    ensures DigitsValue(FixedDigits(n, k)) == n
  {
    if k > 0 {
      FixedDigitsValue(n / 10, k - 1);
      var s := FixedDigits(n, k);
      assert s[..k - 1] == FixedDigits(n / 10, k - 1);
    }
  }

  /** A string of `k` digits is the fixed-width rendering of its own value. */
  lemma {:induction false} DigitsValueFixed(s: string)
    requires AllDigits(s)
    ensures DigitsValue(s) < Pow10(|s|)
    ensures FixedDigits(DigitsValue(s), |s|) == s
  {
    if s != [] {
      var init := s[..|s| - 1];
      DigitsValueFixed(init);
      assert s == init + [s[|s| - 1]];
    }
  }
}
