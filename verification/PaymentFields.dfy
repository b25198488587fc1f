/** Validation of the daemon-provided payment fields
    (antd-cpp/examples/external_signer_util.hpp). */
module PaymentFields {
  import opened Text
  import opened Decimal

  // ----- hex fields -----

  predicate IsHexDigit(c: char) { '0' <= c <= '9' || 'a' <= c <= 'f' || 'A' <= c <= 'F' }

  predicate AllHex(s: string) { forall k :: 0 <= k < |s| ==> IsHexDigit(s[k]) }

  predicate EvmAddress(s: string) { |s| == 42 && "0x" <= s && AllHex(s[2..]) }

  /** 64 hex digits after an optional "0x". */
  predicate Bytes32(s: string) {
    (|s| == 66 && "0x" <= s && AllHex(s[2..])) || (|s| == 64 && !("0x" <= s) && AllHex(s))
  }

  method IsHexDigits(s: string, count: nat) returns (ok: bool)
    ensures ok <==> |s| == count && AllHex(s)
  {
    if |s| != count { return false; }
    for i := 0 to |s|
      invariant AllHex(s[..i])
    {
      if !IsHexDigit(s[i]) { return false; }
    }
    assert s[..|s|] == s;
    return true;
  }

  method IsEvmAddress(s: string) returns (ok: bool)
    ensures ok <==> EvmAddress(s)
  {
    if !(|s| == 42 && s[..2] == "0x") { return false; }
    ok := IsHexDigits(s[2..], 40);
  }

  method IsBytes32Hex(s: string) returns (ok: bool)
    ensures ok <==> Bytes32(s)
  {
    var digits := s;
    if "0x" <= s { digits := s[2..]; }
    ok := IsHexDigits(digits, 64);
  }

  lemma HexDigits(c: char)
    ensures IsHexDigit(c) <==> c in "0123456789" + "abcdef" + "ABCDEF"
  {}

  /** How many hex digits each kind of field has, with and without 0x. */
  lemma HexLengths(h: string)
    requires AllHex(h)
    ensures EvmAddress("0x" + h) <==> |h| == 40
    ensures Bytes32("0x" + h) <==> |h| == 64
    ensures Bytes32(h) <==> |h| == 64
    ensures !EvmAddress(h)
  {
    assert ("0x" + h)[2..] == h;
    assert "0x" <= h ==> h[1] == 'x' && !IsHexDigit('x');
  }

  // ----- decimal uint256 -----

  /** kMax, six digits at a time. */
  const MAX_GROUPS: seq<nat> :=
    [115792, 089237, 316195, 423570, 985008, 687907, 853269, 984665, 640564, 039457, 584007, 913129, 639935]

  /** The last `width` digits of n, zero-padded. */
  function Padded(n: nat, width: nat): (s: string)
    ensures |s| == width && AllDigits(s)
  {
    if width == 0 then "" else Padded(n / 10, width - 1) + [Digit(n % 10)]
  }

  /** The text of the first k groups, and the number they spell. */
  function GroupsText(k: nat): string
    requires k <= |MAX_GROUPS|
  {
    if k == 0 then "" else GroupsText(k - 1) + Padded(MAX_GROUPS[k - 1], 6)
  }

  function GroupsValue(k: nat): nat
    requires k <= |MAX_GROUPS|
  {
    if k == 0 then 0 else GroupsValue(k - 1) * 1000000 + MAX_GROUPS[k - 1]
  }

  const MAX_TEXT: string := GroupsText(|MAX_GROUPS|)

  const MAX_UINT256: nat := 0x1_0000_0000_0000_0000_0000_0000_0000_0000_0000_0000_0000_0000_0000_0000_0000_0000 - 1

  /** The byte order of std::string_view. */
  predicate LexLe(a: string, b: string) {
    if a == "" then true
    else if b == "" then false
    else a[0] < b[0] || (a[0] == b[0] && LexLe(a[1..], b[1..]))
  }

  predicate DecimalUint256(s: string) {
    1 <= |s| <= 78 && AllDigits(s) && Value(s) <= MAX_UINT256
  }

  /** On digit strings of one length, byte order is numeric order. */
  lemma {:induction false} LexIsNumeric(a: string, b: string)
    requires |a| == |b| && AllDigits(a) && AllDigits(b)
    ensures LexLe(a, b) <==> Value(a) <= Value(b)
  {
    if a != "" {
      ValueHead(a);
      ValueHead(b);
      ValueBound(a[1..]);
      ValueBound(b[1..]);
      assert a[0] in a && b[0] in b;
      var p := Pow10(|a| - 1);
      var x, y := DigitValue(a[0]), DigitValue(b[0]);
      if x < y {
        HeadDominates(x, y, p, Value(a[1..]));
      } else if y < x {
        HeadDominates(y, x, p, Value(b[1..]));
      } else {
        LexIsNumeric(a[1..], b[1..]);
      }
    }
  }

  lemma HeadDominates(x: nat, y: nat, p: nat, low: nat)
    requires x < y && low < p
    ensures x * p + low < y * p
  {
    var k: nat := y - x - 1;
    assert k * p >= 0;
    assert y * p == x * p + k * p + p by { assert y == x + k + 1; }
  }

  lemma {:induction false} PaddedValue(n: nat, width: nat)
    requires n < Pow10(width)
    ensures Value(Padded(n, width)) == n
  {
    if width > 0 {
      PaddedValue(n / 10, width - 1);
      LastDigit(Padded(n, width));
      assert Padded(n, width)[..width - 1] == Padded(n / 10, width - 1);
    }
  }

  lemma SixDigits(n: nat)
    requires n < 1000000
    ensures Value(Padded(n, 6)) == n && Pow10(6) == 1000000
  {
    PaddedValue(n, 6);
  }

  /** Appending a group appends its digits. */
  lemma {:induction false} GroupsTextValue(k: nat)
    requires k <= |MAX_GROUPS|
    ensures AllDigits(GroupsText(k)) && |GroupsText(k)| == 6 * k && Value(GroupsText(k)) == GroupsValue(k)
  {
    hide Value, Pow10, Padded;
    if k == 0 {
      NoDigits();
    } else {
      GroupsTextValue(k - 1);
      GroupFits(k - 1);
      SixDigits(MAX_GROUPS[k - 1]);
      ValueAppend(GroupsText(k - 1), Padded(MAX_GROUPS[k - 1], 6));
    }
  }

  lemma GroupFits(i: nat)
    requires i < |MAX_GROUPS|
    ensures MAX_GROUPS[i] < 1000000
  {}

  lemma Pow10Plus3(n: nat)
    ensures Pow10(n + 3) == 1000 * Pow10(n)
  {
    assert Pow10(n + 1) == 10 * Pow10(n) && Pow10(n + 2) == 10 * Pow10(n + 1);
  }

  lemma {:induction false} GroupsAtLeast(k: nat)
    requires 1 <= k <= |MAX_GROUPS|
    ensures GroupsValue(k) >= Pow10(6 * k - 1)
  {
    if k == 1 {
      assert Pow10(5) == 100000;
    } else {
      hide Pow10;
      GroupsAtLeast(k - 1);
      Pow10Plus3(6 * k - 7);
      Pow10Plus3(6 * k - 4);
    }
  }

  lemma GroupsValueMax()
    ensures |MAX_GROUPS| == 13 && GroupsValue(13) == MAX_UINT256
  {
    assert GroupsValue(5) == 115792089237316195423570985008;
    assert GroupsValue(9) == 115792089237316195423570985008687907853269984665640564;
  }

  /** kMax is the numeral of 2^256 - 1. */
  lemma MaxTextValue()
    ensures |MAX_TEXT| == 78 && AllDigits(MAX_TEXT) && Value(MAX_TEXT) == MAX_UINT256
  {
    hide GroupsText, GroupsValue;
    GroupsValueMax();
    GroupsTextValue(13);
  }

  lemma {:induction false} Pow10Grows(i: nat, j: nat)
    requires i <= j
    ensures Pow10(i) <= Pow10(j)
  {
    if i < j { Pow10Grows(i, j - 1); }
  }

  /** A shorter digit string is in range whatever its digits. */
  lemma ShortIsInRange(s: string)
    requires AllDigits(s) && |s| < 78
    ensures Value(s) <= MAX_UINT256
  {
    ValueBound(s);
    Pow10Grows(|s|, 77);
    GroupsValueMax();
    GroupsAtLeast(13);
  }

  /** is_decimal_uint256: the byte comparison decides the numeric bound. */
  method IsDecimalUint256(s: string) returns (ok: bool)
    ensures ok <==> DecimalUint256(s)
  {
    if s == "" || |s| > |MAX_TEXT| { MaxTextValue(); return false; }
    for i := 0 to |s|
      invariant forall k :: 0 <= k < i ==> IsDigit(s[k])
    {
      if !IsDigit(s[i]) { assert s[i] in s; return false; }
    }
    MaxTextValue();
    if |s| < |MAX_TEXT| {
      ShortIsInRange(s);
    } else {
      LexIsNumeric(s, MAX_TEXT);
    }
    return |s| < |MAX_TEXT| || LexLe(s, MAX_TEXT);
  }
}
