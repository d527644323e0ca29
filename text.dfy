/**
 * Text helpers shared by the printer, the code generator and the driver: the digits of a
 * number in base 2, 10 or 16 (Rust's `{}`, `{:x}` and `{:b}`), joining and splitting on a
 * separator, and ASCII lower-casing.
 */
module Text {

  const Digits: string := "0123456789abcdef"

  /** The lower-case digit for d. */
  function DigitChar(d: nat): char
    requires d < 16
  {
    Digits[d]
  }

  /** The value of a lower-case digit character (0 for anything else). */
  function DigitValue(c: char): (d: nat)
    ensures d < 16
  {
    if '0' <= c <= '9' then c as int - '0' as int
    else if 'a' <= c <= 'f' then c as int - 'a' as int + 10
    else 0
  }

  lemma DigitValueOfChar(d: nat)
    requires d < 16
    ensures DigitValue(DigitChar(d)) == d
  {
  }

  /** n written out in the given base, most significant digit first, without a prefix. */
  function NatText(n: nat, base: nat): (s: string)
    requires 2 <= base <= 16
    ensures |s| >= 1
    decreases n
  {
    if n < base then [DigitChar(n)] else NatText(n / base, base) + [DigitChar(n % base)]
  }

  /** Reads a string of digits in the given base back as a number. */
  function ParseNat(s: string, base: nat): nat
  {
    if s == [] then 0 else ParseNat(s[..|s| - 1], base) * base + DigitValue(s[|s| - 1])
  }

  lemma ParseNatSnoc(p: string, c: char, base: nat)
    ensures ParseNat(p + [c], base) == ParseNat(p, base) * base + DigitValue(c)
  {
    assert (p + [c])[..|p + [c]| - 1] == p;
  }

  lemma ParseNatSingle(c: char, base: nat)
    ensures ParseNat([c], base) == DigitValue(c)
  {
    assert [c][..0] == [];
  }

  lemma DivMod(n: nat, base: nat)
    requires base >= 1
    ensures n == (n / base) * base + n % base
  {
  }

  /** Printing a number and reading it back gives the number again. */
  lemma {:induction false} NatTextRoundTrip(n: nat, base: nat)
    requires 2 <= base <= 16
    ensures ParseNat(NatText(n, base), base) == n
    decreases n
  {
    if n < base {
      ParseNatSingle(DigitChar(n), base);
      DigitValueOfChar(n);
    } else {
      NatTextRoundTrip(n / base, base);
      NatTextStep(n, base);
    }
  }

  lemma NatTextStep(n: nat, base: nat)
    requires 2 <= base <= 16 && n >= base
    requires ParseNat(NatText(n / base, base), base) == n / base
    ensures ParseNat(NatText(n, base), base) == n
  {
    var q, r := n / base, n % base;
    var p := NatText(q, base);
    ParseNatSnoc(p, DigitChar(r), base);
    DigitValueOfChar(r);
    assert NatText(n, base) == p + [DigitChar(r)];
    DivMod(n, base);
  }

  /** c is the digit character of a value below base. */
  predicate IsDigit(c: char, base: nat)
  {
    DigitValue(c) < base && DigitChar(DigitValue(c)) == c
  }

  /** One step of NatText: the digits of n / base, then the digit of n % base. */
  lemma NatTextUnfold(n: nat, base: nat)
    requires 2 <= base <= 16 && n >= base
    ensures n / base < n && n % base < base
    ensures NatText(n, base) == NatText(n / base, base) + [DigitChar(n % base)]
  {
  }

  /** A digit is a decimal digit or a lower-case letter up to f. */
  lemma DigitRange(c: char, base: nat)
    requires IsDigit(c, base)
    ensures '0' <= c <= '9' || 'a' <= c <= 'f'
  {
  }

  /** Only digits of the base appear, and there is no leading zero unless n is 0. */
  lemma NatTextDigits(n: nat, base: nat)
    requires 2 <= base <= 16
    ensures forall i :: 0 <= i < |NatText(n, base)| ==> IsDigit(NatText(n, base)[i], base)
    ensures NatText(n, base)[0] == '0' <==> n == 0
  {
    NatTextInBase(n, base);
    NatTextLeading(n, base);
  }

  lemma {:induction false} NatTextInBase(n: nat, base: nat)
    requires 2 <= base <= 16
    ensures forall i :: 0 <= i < |NatText(n, base)| ==> IsDigit(NatText(n, base)[i], base)
    decreases n
  {
    if n >= base {
      NatTextUnfold(n, base);
      NatTextInBase(n / base, base);
      DigitsSnoc(NatText(n / base, base), n % base, base);
    } else {
      DigitValueOfChar(n);
    }
  }

  lemma DigitsSnoc(p: string, r: nat, base: nat)
    requires r < base <= 16
    requires forall i :: 0 <= i < |p| ==> IsDigit(p[i], base)
    ensures forall i :: 0 <= i < |p + [DigitChar(r)]| ==> IsDigit((p + [DigitChar(r)])[i], base)
  {
    DigitValueOfChar(r);
  }

  /** The first character of a number is one of the first base digits. */
  lemma {:induction false} NatTextFirstDigit(n: nat, base: nat)
    requires 2 <= base <= 16
    ensures IsDigit(NatText(n, base)[0], base)
    decreases n
  {
    if n >= base {
      NatTextUnfold(n, base);
      NatTextFirstDigit(n / base, base);
      assert NatText(n, base)[0] == NatText(n / base, base)[0];
    } else {
      DigitValueOfChar(n);
    }
  }

  lemma {:induction false} NatTextLeading(n: nat, base: nat)
    requires 2 <= base <= 16
    ensures NatText(n, base)[0] == '0' <==> n == 0
    decreases n
  {
    if n >= base {
      var p := NatText(n / base, base);
      NatTextUnfold(n, base);
      NatTextLeading(n / base, base);
      assert NatText(n, base)[0] == p[0];
    } else {
      DigitValueOfChar(n);
      assert NatText(n, base) == [DigitChar(n)];
      assert DigitValue('0') == 0;
    }
  }

  /** Different numbers print differently. */
  lemma NatTextInjective(m: nat, n: nat, base: nat)
    requires 2 <= base <= 16
    requires NatText(m, base) == NatText(n, base)
    ensures m == n
  {
    NatTextRoundTrip(m, base);
    NatTextRoundTrip(n, base);
  }

  /** An integer in decimal with a leading '-' when negative (Rust's `{}` on signed integers). */
  function IntText(i: int): string
  {
    if i < 0 then "-" + NatText(-i, 10) else NatText(i, 10)
  }

  /** Reads IntText's format back. */
  function ParseInt(s: string): int
  {
    if |s| > 0 && s[0] == '-' then -(ParseNat(s[1..], 10) as int) else ParseNat(s, 10)
  }

  lemma IntTextRoundTrip(i: int)
    ensures ParseInt(IntText(i)) == i
  {
    if i < 0 {
      NegTextRoundTrip(i);
    } else {
      NonNegTextRoundTrip(i);
    }
  }

  lemma NegTextRoundTrip(i: int)
    requires i < 0
    ensures ParseInt(IntText(i)) == i
  {
    var t := NatText(-i, 10);
    NatTextRoundTrip(-i, 10);
    assert IntText(i) == "-" + t;
    assert ("-" + t)[1..] == t;
  }

  lemma NonNegTextRoundTrip(i: nat)
    ensures ParseInt(IntText(i)) == i
  {
    var t := NatText(i, 10);
    NatTextRoundTrip(i, 10);
    NatTextFirstDigit(i, 10);
    DigitRange(t[0], 10);
    assert IntText(i) == t;
  }

  /** The parts with sep between consecutive ones and none after the last. */
  function Join(parts: seq<string>, sep: char): string
  {
    if |parts| == 0 then ""
    else if |parts| == 1 then parts[0]
    else parts[0] + [sep] + Join(parts[1..], sep)
  }

  /** The pieces of s between occurrences of sep (always at least one piece). */
  function Split(s: string, sep: char): (parts: seq<string>)
    ensures |parts| >= 1
  {
    if s == [] then [""]
    else
      var rest := Split(s[1..], sep);
      if s[0] == sep then [""] + rest else [[s[0]] + rest[0]] + rest[1..]
  }

  lemma {:induction false} SplitNoSep(a: string, sep: char)
    requires sep !in a
    ensures Split(a, sep) == [a]
  {
    if a != [] {
      SplitNoSep(a[1..], sep);
      assert [a[0]] + a[1..] == a;
    }
  }

  lemma {:induction false} SplitAfter(a: string, sep: char, t: string)
    requires sep !in a
    ensures Split(a + [sep] + t, sep) == [a] + Split(t, sep)
  {
    if a == [] {
      assert a + [sep] + t == [sep] + t;
      assert ([sep] + t)[1..] == t;
    } else {
      var s := a + [sep] + t;
      assert s[1..] == a[1..] + [sep] + t;
      SplitAfter(a[1..], sep, t);
      assert [a[0]] + a[1..] == a;
    }
  }

  /** Splitting a join on its separator recovers the parts, provided none contains it. */
  lemma {:induction false} SplitJoin(parts: seq<string>, sep: char)
    requires |parts| >= 1
    requires forall k :: 0 <= k < |parts| ==> sep !in parts[k]
    ensures Split(Join(parts, sep), sep) == parts
  {
    if |parts| == 1 {
      SplitNoSep(parts[0], sep);
    } else {
      SplitJoin(parts[1..], sep);
      SplitAfter(parts[0], sep, Join(parts[1..], sep));
      assert [parts[0]] + parts[1..] == parts;
    }
  }

  /** All parts one after the other. */
  function Concat(parts: seq<string>): string
  {
    if parts == [] then "" else parts[0] + Concat(parts[1..])
  }

  lemma {:induction false} ConcatAppend(parts: seq<string>, last: string)
    ensures Concat(parts + [last]) == Concat(parts) + last
  {
    if parts != [] {
      assert (parts + [last])[1..] == parts[1..] + [last];
      ConcatAppend(parts[1..], last);
    } else {
      assert [last][1..] == [];
    }
  }

  /** ASCII lower-casing of one character. */
  function LowerChar(c: char): char
  {
    if 'A' <= c <= 'Z' then (c as int + 32) as char else c
  }

  /** The string with every ASCII capital replaced by its small letter. */
  function ToLower(s: string): (r: string)
    ensures |r| == |s|
    ensures forall i :: 0 <= i < |s| ==> r[i] == LowerChar(s[i])
  {
    seq(|s|, i requires 0 <= i < |s| => LowerChar(s[i]))
  }
}
