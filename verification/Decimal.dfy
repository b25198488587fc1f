/** Decimal numerals: the printers (%d, Rust's Display, std::to_string) and
    Go's strconv readers. */
module Decimal {
  import opened Text

  const TWO_63: nat := 0x8000_0000_0000_0000
  const TWO_64: nat := 0x1_0000_0000_0000_0000

  newtype int64 = x: int | -0x8000_0000_0000_0000 <= x < 0x8000_0000_0000_0000
  newtype uint64 = x: int | 0 <= x < 0x1_0000_0000_0000_0000

  const MAX_INT64: int64 := 0x7FFF_FFFF_FFFF_FFFF
  const MAX_UINT64: uint64 := 0xFFFF_FFFF_FFFF_FFFF

  predicate IsDigit(c: char) { '0' <= c <= '9' }

  predicate AllDigits(s: string) { forall c :: c in s ==> IsDigit(c) }

  function DigitValue(c: char): (d: nat)
    requires IsDigit(c)
    ensures d < 10
  {
    c as int - '0' as int
  }

  function Digit(d: nat): (c: char)
    requires d < 10
    ensures IsDigit(c) && DigitValue(c) == d
  {
    '0' + d as char
  }

  /** The number a digit string denotes, leading zeros included. */
  function Value(s: string): nat
    requires AllDigits(s)
  {
    if s == "" then 0 else 10 * Value(s[..|s| - 1]) + DigitValue(s[|s| - 1])
  }

  /** The shortest numeral for n. */
  function Print(n: nat): (s: string)
    ensures s != "" && AllDigits(s)
  {
    if n < 10 then [Digit(n)] else Print(n / 10) + [Digit(n % 10)]
  }

  /** Reading a printed number gives the number back. */
  lemma {:induction false} ValueOfPrint(n: nat)
    ensures Value(Print(n)) == n
  {
    if n < 10 {
      assert Value([Digit(n)][..0]) == 0;
    } else {
      ValueOfPrint(n / 10);
      var s := Print(n);
      assert s[..|s| - 1] == Print(n / 10);
    }
  }

  function Pow10(k: nat): (p: nat)
    ensures p > 0
  {
    if k == 0 then 1 else 10 * Pow10(k - 1)
  }

  /** Positional notation: appending digits shifts by a power of ten. */
  lemma {:induction false} ValueAppend(a: string, b: string)
    requires AllDigits(a) && AllDigits(b)
    ensures AllDigits(a + b) && Value(a + b) == Value(a) * Pow10(|b|) + Value(b)
  {
    hide Value, Pow10;
    DigitsAppend(a, b);
    if b == "" {
      assert a + b == a;
      NoDigits();
    } else {
      var b' := b[..|b| - 1];
      assert (a + b)[..|a + b| - 1] == a + b';
      ValueAppend(a, b');
      LastDigit(a + b);
      LastDigit(b);
      TimesTen(Value(a), |b'|);
    }
  }

  lemma DigitsAppend(a: string, b: string)
    requires AllDigits(a) && AllDigits(b)
    ensures AllDigits(a + b)
  {}

  lemma NoDigits()
    ensures Value("") == 0 && Pow10(0) == 1
  {}

  lemma LastDigit(s: string)
    requires s != "" && AllDigits(s)
    ensures var s' := s[..|s| - 1]; AllDigits(s') && Value(s) == 10 * Value(s') + DigitValue(s[|s| - 1])
  {}

  lemma TimesTen(v: nat, k: nat)
    ensures 10 * (v * Pow10(k)) == v * Pow10(k + 1)
  {
    assert Pow10(k + 1) == 10 * Pow10(k);
  }

  lemma {:induction false} ValueBound(s: string)
    requires AllDigits(s)
    ensures Value(s) < Pow10(|s|)
  {
    if s != "" { ValueBound(s[..|s| - 1]); }
  }

  lemma ValueHead(s: string)
    requires s != "" && AllDigits(s)
    ensures AllDigits(s[1..]) && Value(s) == DigitValue(s[0]) * Pow10(|s| - 1) + Value(s[1..])
  {
    hide Value, Pow10;
    assert s == [s[0]] + s[1..];
    assert s[0] in s;
    assert forall c :: c in s[1..] ==> c in s;
    ValueAppend([s[0]], s[1..]);
    OneDigit(s[0]);
  }

  lemma OneDigit(c: char)
    requires IsDigit(c)
    ensures Value([c]) == DigitValue(c)
  {
    assert [c][..0] == "";
  }

  /** Go's strconv.ParseUint(s, 10, 64): digits only, no sign, in range. */
  function ParseUint64(s: string): (r: Option<uint64>)
    ensures r.Some? <==> s != "" && AllDigits(s) && Value(s) < TWO_64
    ensures r.Some? ==> r.value as nat == Value(s)
  {
    if s != "" && AllDigits(s) && Value(s) < TWO_64 then Some(Value(s) as uint64) else None
  }

  /** Go's strconv.ParseInt(s, 10, 64): an optional sign, then digits. */
  function ParseInt64(s: string): Option<int64> {
    if s == "" then None
    else
      var digits := if s[0] in "+-" then s[1..] else s;
      if digits == "" || !AllDigits(digits) then None
      else
        var n: int := Value(digits);
        if s[0] == '-' then
          if n <= TWO_63 then Some((0 - n) as int64) else None
        else
          if n < TWO_63 then Some(n as int64) else None
  }

  /** std::from_chars on an unsigned 64-bit target: digit by digit from n, None
      on overflow or on a byte that is no digit. */
  function FromChars(s: string, n: nat): Option<uint64>
    requires n < TWO_64
  {
    if s == "" then Some(n as uint64)
    else if !IsDigit(s[0]) then None
    else
      var next := 10 * n + DigitValue(s[0]);
      if next >= TWO_64 then None else FromChars(s[1..], next)
  }

  /** parse_decimal_u64 (antd-cpp/include/antd/errors.hpp): the whole text or nothing. */
  function ParseDecimalU64(s: string): Option<uint64> { if s == "" then None else FromChars(s, 0) }

  lemma {:induction false} FromCharsReads(s: string, n: nat)
    requires AllDigits(s) && n < TWO_64
    ensures var total := n * Pow10(|s|) + Value(s);
            FromChars(s, n) == if total < TWO_64 then Some(total as uint64) else None
  {
    hide Value, Pow10;
    if s == "" {
      NoDigits();
    } else {
      assert s[0] in s;
      ValueHead(s);
      var next := 10 * n + DigitValue(s[0]);
      ShiftDigit(n, DigitValue(s[0]), |s| - 1);
      if next < TWO_64 {
        FromCharsReads(s[1..], next);
      } else {
        AtLeast(next, Pow10(|s| - 1));
      }
    }
  }

  lemma ShiftDigit(n: nat, d: nat, k: nat)
    ensures n * Pow10(k + 1) + d * Pow10(k) == (10 * n + d) * Pow10(k)
  {
    TimesTen(n, k);
  }

  lemma AtLeast(n: nat, p: nat)
    requires p > 0
    ensures n * p >= n
  {}

  lemma {:induction false} FromCharsDigits(s: string, n: nat)
    requires n < TWO_64 && FromChars(s, n).Some?
    ensures AllDigits(s)
  {
    if s != "" {
      FromCharsDigits(s[1..], 10 * n + DigitValue(s[0]));
      assert s == [s[0]] + s[1..];
    }
  }

  /** The two clients convert every text alike: overflow met digit by digit is
      overflow of the whole number. */
  lemma ConversionsAgree(s: string)
    ensures ParseDecimalU64(s) == ParseUint64(s)
  {
    if s != "" && AllDigits(s) {
      FromCharsReads(s, 0);
    } else if ParseDecimalU64(s).Some? {
      FromCharsDigits(s, 0);
    }
  }

  lemma ParseUint64OfPrint(n: nat)
    ensures ParseUint64(Print(n)) == if n < TWO_64 then Some(n as uint64) else None
  {
    ValueOfPrint(n);
  }

  /** A sign is read, whatever the size of what follows it. */
  lemma ParseInt64OfSigned(n: nat)
    ensures ParseInt64("+" + Print(n)) == if n < TWO_63 then Some(n as int64) else None
    ensures ParseInt64("-" + Print(n)) == if n <= TWO_63 then Some((0 - n) as int64) else None
  {
    ValueOfPrint(n);
    assert ("+" + Print(n))[1..] == Print(n) && ("-" + Print(n))[1..] == Print(n);
  }

  lemma ParseInt64OfPrint(n: nat)
    ensures ParseInt64(Print(n)) == if n < TWO_63 then Some(n as int64) else None
  {
    ValueOfPrint(n);
    assert Print(n)[0] in Print(n);
  }
}
