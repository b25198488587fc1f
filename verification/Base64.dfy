/** Base64: the REST encoder and decoder (antd-cpp/src/base64.cpp), the second
    encoder of the gRPC client (antd-cpp/src/grpc_client.cpp), and RFC 4648. */
module Base64 {
  import opened Text

  type byte = x: int | 0 <= x < 256

  const ALPHABET := "ABCDEFGHIJKLM" + "NOPQRSTUVWXYZ" + "abcdefghijklm" + "nopqrstuvwxyz" + "0123456789+/"

  /** kAlphabet[i], by ranges; AlphabetByRange ties it to the literal. */
  function Letter(i: nat): char
    requires i < 64
  {
    if i < 26 then 'A' + i as char
    else if i < 52 then 'a' + (i - 26) as char
    else if i < 62 then '0' + (i - 52) as char
    else if i == 62 then '+'
    else '/'
  }

  lemma AlphabetByRange(i: nat)
    requires i < 64
    ensures |ALPHABET| == 64 && ALPHABET[i] == Letter(i)
  {}

  /** kDecodeTable, with 0xFF for a byte outside the alphabet. */
  function TableEntry(c: char): (v: nat)
    ensures v < 64 || v == 0xFF
  {
    if 'A' <= c <= 'Z' then c as int - 'A' as int
    else if 'a' <= c <= 'z' then c as int - 'a' as int + 26
    else if '0' <= c <= '9' then c as int - '0' as int + 52
    else if c == '+' then 62
    else if c == '/' then 63
    else 0xFF
  }

  predicate IsLetter(c: char) { TableEntry(c) < 64 }

  /** The decode table and the alphabet invert each other. */
  lemma TableInvertsAlphabet(i: nat)
    requires i < 64
    ensures TableEntry(Letter(i)) == i && Letter(i) != '='
  {}

  lemma AlphabetInvertsTable(c: char)
    requires IsLetter(c)
    ensures Letter(TableEntry(c)) == c
  {}

  // ----- RFC 4648, section 4 -----

  /** The 24-bit group that three octets make up, most significant first. */
  function Triple(a: byte, b: byte, c: byte): (n: nat)
    ensures n < 0x100_0000
  {
    a as int * 0x10000 + b as int * 0x100 + c as int
  }

  /** The 24-bit group that four sextets make up. */
  function FromSextets(p: nat, q: nat, r: nat, s: nat): (n: nat)
    requires p < 64 && q < 64 && r < 64 && s < 64
    ensures n < 0x100_0000
  {
    p * 0x40000 + q * 0x1000 + r * 0x40 + s
  }

  ghost predicate AreSextets(n: nat, p: nat, q: nat, r: nat, s: nat) {
    p < 64 && q < 64 && r < 64 && s < 64 && FromSextets(p, q, r, s) == n
  }

  lemma SextetsByDivision(n: nat)
    requires n < 0x100_0000
    ensures AreSextets(n, n / 0x40000 % 64, n / 0x1000 % 64, n / 0x40 % 64, n % 64)
  {
    var a := n / 0x40;
    var b := a / 64;
    var c := b / 64;
    assert n == a * 64 + n % 64 && a == b * 64 + a % 64 && b == c * 64 + b % 64;
    QuotientOf12(n, b);
    QuotientOf18(n, c);
    assert c % 64 == c;
  }

  lemma QuotientOf12(n: nat, q: nat)
    requires q * 0x1000 <= n < q * 0x1000 + 0x1000
    ensures n / 0x1000 == q
  {}

  lemma QuotientOf18(n: nat, q: nat)
    requires q * 0x40000 <= n < q * 0x40000 + 0x40000
    ensures n / 0x40000 == q
  {}

  lemma SextetsUnique(p: nat, q: nat, r: nat, s: nat, p': nat, q': nat, r': nat, s': nat)
    requires p < 64 && q < 64 && r < 64 && s < 64 && p' < 64 && q' < 64 && r' < 64 && s' < 64
    requires FromSextets(p, q, r, s) == FromSextets(p', q', r', s')
    ensures p == p' && q == q' && r == r' && s == s'
  {}

  /** The four letters of a 24-bit group. */
  ghost function Letters(n: nat): (g: string)
    requires n < 0x100_0000
    ensures |g| == 4
  {
    [Letter(n / 0x40000 % 64), Letter(n / 0x1000 % 64), Letter(n / 0x40 % 64), Letter(n % 64)]
  }

  lemma LettersOf(n: nat, p: nat, q: nat, r: nat, s: nat)
    requires p < 64 && q < 64 && r < 64 && s < 64 && n == FromSextets(p, q, r, s)
    ensures Letters(n) == [Letter(p), Letter(q), Letter(r), Letter(s)]
  {
    SextetsByDivision(n);
    SextetsUnique(p, q, r, s, n / 0x40000 % 64, n / 0x1000 % 64, n / 0x40 % 64, n % 64);
  }

  /** One group: three octets, or a final one or two padded with `=`. */
  ghost function Group(d: seq<byte>): (g: string)
    requires 0 < |d| <= 3
    ensures |g| == 4
  {
    if |d| == 1 then Letters(Triple(d[0], 0, 0))[..2] + "=="
    else if |d| == 2 then Letters(Triple(d[0], d[1], 0))[..3] + "="
    else Letters(Triple(d[0], d[1], d[2]))
  }

  /** Section 4: full groups of three octets, then a padded final group. */
  ghost function Encoded(d: seq<byte>): string
    decreases |d|
  {
    if d == [] then "" else Group(First(d, 3)) + Encoded(After(d, 3))
  }

  /** Where the sources write shifts, masks and `|`, on a uint32 built from
      octets or sextets, those are exactly these sums, quotients and remainders. */
  lemma BitsAreArithmetic(a: bv32, b: bv32, c: bv32)
    requires a < 256 && b < 256 && c < 256
    ensures (a << 16) | (b << 8) | c == a * 0x10000 + b * 0x100 + c
    ensures var t := (a << 16) | (b << 8) | c;
            && (t >> 18) & 0x3F == t / 0x40000 % 64
            && (t >> 12) & 0x3F == t / 0x1000 % 64
            && (t >> 6) & 0x3F == t / 0x40 % 64
            && t & 0x3F == t % 64
  {}

  lemma SextetBitsAreArithmetic(p: bv32, q: bv32, r: bv32, s: bv32)
    requires p < 64 && q < 64 && r < 64 && s < 64
    ensures (p << 18) | (q << 12) | (r << 6) | s == p * 0x40000 + q * 0x1000 + r * 0x40 + s
    ensures var t := (p << 18) | (q << 12) | (r << 6) | s;
            && (t >> 16) & 0xFF == t / 0x10000 % 256
            && (t >> 8) & 0xFF == t / 0x100 % 256
            && t & 0xFF == t % 256
  {}

  /** The four `out += kAlphabet[...]` lines both encoders share. */
  method AppendLetters(out: string, triple: nat) returns (r: string)
    requires triple < 0x100_0000
    ensures r == out + Letters(triple)
  {
    r := out + [Letter(triple / 0x40000 % 64)];
    r := r + [Letter(triple / 0x1000 % 64)];
    r := r + [Letter(triple / 0x40 % 64)];
    r := r + [Letter(triple % 64)];
  }

  /** The encoding before `=` is patched in: missing octets read as zero. */
  ghost function Unpatched(d: seq<byte>): string
    decreases |d|
  {
    if d == [] then ""
    else
      Letters(Triple(d[0], if |d| > 1 then d[1] else 0, if |d| > 2 then d[2] else 0))
      + Unpatched(After(d, 3))
  }

  /** Overwriting the last one or two characters with `=`. */
  ghost function PadLast(s: string, n: nat): string
    requires 1 <= n <= 2 && n <= |s|
  {
    if n == 1 then s[..|s| - 1] + "=" else s[..|s| - 2] + "=="
  }

  lemma PadLastAfter(head: string, tail: string, n: nat)
    requires 1 <= n <= 2 && n <= |tail|
    ensures PadLast(head + tail, n) == head + PadLast(tail, n)
  {
    assert (head + tail)[..|head + tail| - n] == head + tail[..|tail| - n];
  }

  lemma {:induction false} PatchedIsEncoded(d: seq<byte>)
    ensures |d| % 3 == 0 ==> Unpatched(d) == Encoded(d)
    ensures |d| % 3 == 1 ==> |Unpatched(d)| >= 2 && PadLast(Unpatched(d), 2) == Encoded(d)
    ensures |d| % 3 == 2 ==> |Unpatched(d)| >= 1 && PadLast(Unpatched(d), 1) == Encoded(d)
    decreases |d|
  {
    hide Letters, PadLast;
    if |d| > 3 {
      var rest := After(d, 3);
      PatchedIsEncoded(rest);
      assert |d| % 3 == |rest| % 3;
      var head := Group(First(d, 3));
      assert Unpatched(d) == head + Unpatched(rest);
      if |d| % 3 == 1 { PadLastAfter(head, Unpatched(rest), 2); }
      if |d| % 3 == 2 { PadLastAfter(head, Unpatched(rest), 1); }
    } else if |d| > 0 {
      PatchedShort(d);
    }
  }

  lemma PatchedShort(d: seq<byte>)
    requires 0 < |d| <= 3
    ensures |Unpatched(d)| == 4
    ensures Encoded(d) == if |d| == 3 then Unpatched(d) else PadLast(Unpatched(d), 3 - |d|)
  {
    var u := Letters(Triple(d[0], if |d| > 1 then d[1] else 0, if |d| > 2 then d[2] else 0));
    assert Unpatched(d) == u + "" == u;
    assert Encoded(d) == Group(d) + "" == Group(d);
  }

  /** base64_encode: encode zero-extended groups, then fix the padding. */
  method Base64Encode(data: seq<byte>) returns (out: string)
    ensures out == Encoded(data)
  {
    hide Letters;
    out := "";
    var i, n := 0, |data|;
    while i < n
      invariant 0 <= i <= n
      invariant Unpatched(data) == out + Unpatched(After(data, i))
    {
      ghost var before := i;
      var octetA := data[i];
      i := i + 1;
      var octetB: byte := 0;
      if i < n { octetB := data[i]; i := i + 1; }
      var octetC: byte := 0;
      if i < n { octetC := data[i]; i := i + 1; }
      var triple := Triple(octetA, octetB, octetC);
      UnpatchedStep(data, before, out, octetA, octetB, octetC);
      assert After(data, i) == After(data, before + 3);
      out := AppendLetters(out, triple);
    }
    PatchedIsEncoded(data);
    PatchAtEnd(out);
    var mod := |data| % 3;
    if mod == 1 {
      out := out[|out| - 2 := '='];
      out := out[|out| - 1 := '='];
    } else if mod == 2 {
      out := out[|out| - 1 := '='];
    }
  }

  lemma UnpatchedStep(data: seq<byte>, i: nat, out: string, a: byte, b: byte, c: byte)
    requires i < |data| && a == data[i]
    requires b == if i + 1 < |data| then data[i + 1] else 0
    requires c == if i + 2 < |data| then data[i + 2] else 0
    ensures out + Unpatched(After(data, i))
         == out + Letters(Triple(a, b, c)) + Unpatched(After(data, i + 3))
  {
    var rest := After(data, i);
    AfterAfter(data, i, 3);
    assert Unpatched(rest) == Letters(Triple(a, b, c)) + Unpatched(After(rest, 3));
    Assoc3(out, Letters(Triple(a, b, c)), Unpatched(After(rest, 3)));
  }

  lemma PatchAtEnd(s: string)
    ensures |s| >= 1 ==> PadLast(s, 1) == s[|s| - 1 := '=']
    ensures |s| >= 2 ==> PadLast(s, 2) == s[|s| - 2 := '='][|s| - 1 := '=']
  {}

  /** base64_of: full groups, then a branch on the one or two octets left. */
  method Base64Of(bytes: seq<byte>) returns (out: string)
    ensures out == Encoded(bytes)
  {
    hide Letters, Triple, Group;
    out := "";
    var i := 0;
    while i + 2 < |bytes|
      invariant 0 <= i <= |bytes|
      invariant Encoded(bytes) == out + Encoded(After(bytes, i))
    {
      EncodedStep(out, bytes, i);
      out := AppendLetters(out, Triple(bytes[i], bytes[i + 1], bytes[i + 2]));
      i := i + 3;
    }
    EncodedTail(out, bytes, i);
    if i + 1 == |bytes| {
      out := AppendTail(out, Triple(bytes[i], 0, 0), 2);
      out := out + "==";
    } else if i + 2 == |bytes| {
      out := AppendTail(out, Triple(bytes[i], bytes[i + 1], 0), 3);
      out := out + "=";
    }
  }

  lemma EncodedStep(out: string, bytes: seq<byte>, i: nat)
    requires i + 2 < |bytes|
    ensures out + Encoded(After(bytes, i))
         == out + Letters(Triple(bytes[i], bytes[i + 1], bytes[i + 2])) + Encoded(After(bytes, i + 3))
  {
    hide Letters;
    var rest := After(bytes, i);
    AfterAfter(bytes, i, 3);
    assert First(rest, 3) == [bytes[i], bytes[i + 1], bytes[i + 2]];
    Assoc3(out, Group(First(rest, 3)), Encoded(After(rest, 3)));
  }

  lemma EncodedTail(out: string, bytes: seq<byte>, i: nat)
    requires i <= |bytes| <= i + 2
    ensures out + Encoded(After(bytes, i))
         == if i == |bytes| then out
            else if i + 1 == |bytes| then out + Letters(Triple(bytes[i], 0, 0))[..2] + "=="
            else out + Letters(Triple(bytes[i], bytes[i + 1], 0))[..3] + "="
  {
    hide Letters;
    var rest := After(bytes, i);
    if i < |bytes| {
      assert rest == if i + 1 == |bytes| then [bytes[i]] else [bytes[i], bytes[i + 1]];
      assert Encoded(rest) == Group(rest) + "" == Group(rest);
    }
  }

  /** The two or three letters of an incomplete group. */
  method AppendTail(out: string, n: nat, count: nat) returns (r: string)
    requires n < 0x100_0000 && 2 <= count <= 3
    ensures r == out + Letters(n)[..count]
  {
    r := out + [Letter(n / 0x40000 % 64)];
    r := r + [Letter(n / 0x1000 % 64)];
    if count == 3 { r := r + [Letter(n / 0x40 % 64)]; }
  }

  // ----- the decoder -----

  datatype DecodeError = InvalidCharacter | LengthError

  /** The sextet at k: `=` and anything past the end read as zero. */
  function SextetAt(s: string, k: nat): (v: nat)
    ensures v < 64
  {
    if k < |s| && IsLetter(s[k]) then TableEntry(s[k]) else 0
  }

  predicate ReadableAt(s: string, k: nat) { k < |s| ==> s[k] == '=' || IsLetter(s[k]) }

  predicate Readable(s: string) { forall k :: 0 <= k < |s| ==> ReadableAt(s, k) }

  /** The three octets of a 24-bit group. */
  function Bytes(n: nat): (o: seq<byte>)
    requires n < 0x100_0000
    ensures |o| == 3
  {
    [n / 0x10000 % 256, n / 0x100 % 256, n % 256]
  }

  /** The 24-bit group of the first four characters. */
  function Bits(s: string): (n: nat)
    ensures n < 0x100_0000
  {
    FromSextets(SextetAt(s, 0), SextetAt(s, 1), SextetAt(s, 2), SextetAt(s, 3))
  }

  /** All three octets of every group of four, padding and all. */
  function AllOctets(s: string): (o: seq<byte>)
    ensures 4 * |o| >= 3 * |s|
    decreases |s|
  {
    if s == "" then [] else Bytes(Bits(s)) + AllOctets(After(s, 4))
  }

  function Padding(s: string): nat {
    (if |s| >= 1 && s[|s| - 1] == '=' then 1 else 0)
    + (if |s| >= 2 && s[|s| - 2] == '=' then 1 else 0)
  }

  /** out_len before it is squeezed into a size_t. */
  function OutLen(s: string): int { |s| / 4 * 3 - Padding(s) }

  /** What base64_decode returns for any string. A negative out_len wraps to
      a huge size_t, which `reserve` rejects before the loop starts. */
  function Decoded(s: string): Result<seq<byte>, DecodeError> {
    if s == "" then Ok([])
    else if OutLen(s) < 0 then Err(LengthError)
    else if !Readable(s) then Err(InvalidCharacter)
    else Ok(AllOctets(s)[..OutLen(s)])
  }

  /** The three guarded push_backs of one group. */
  method PushOctets(out: seq<byte>, outLen: nat, triple: nat, ghost done: seq<byte>) returns (r: seq<byte>)
    requires triple < 0x100_0000 && out == First(done, outLen)
    ensures r == First(done + Bytes(triple), outLen)
  {
    r := out;
    if |r| < outLen { r := r + [triple / 0x10000 % 256]; }
    if |r| < outLen { r := r + [triple / 0x100 % 256]; }
    if |r| < outLen { r := r + [triple % 256]; }
  }

  lemma ReadableSplit(s: string)
    ensures Readable(s)
       <==> ReadableAt(s, 0) && ReadableAt(s, 1) && ReadableAt(s, 2) && ReadableAt(s, 3) && Readable(After(s, 4))
  {
    var rest := After(s, 4);
    if Readable(rest) {
      forall k | 4 <= k < |s| ensures ReadableAt(s, k) { assert ReadableAt(rest, k - 4); }
    }
    if Readable(s) {
      forall k | 0 <= k < |rest| ensures ReadableAt(rest, k) { assert ReadableAt(s, k + 4); }
    }
  }

  /** One turn of the inner loop, seen from the rest of the input. */
  lemma SextetCases(s: string, i: nat, j: nat)
    ensures var rest := After(s, i);
            if i + j >= |s| || s[i + j] == '=' then ReadableAt(rest, j) && SextetAt(rest, j) == 0
            else if TableEntry(s[i + j]) == 0xFF then !ReadableAt(rest, j) && j < |rest|
            else ReadableAt(rest, j) && SextetAt(rest, j) == TableEntry(s[i + j])
  {
    var rest := After(s, i);
    if i + j < |s| { assert rest[j] == s[i + j]; }
  }

  lemma OctetsStep(done: seq<byte>, s: string)
    requires s != ""
    ensures done + AllOctets(s) == done + Bytes(Bits(s)) + AllOctets(After(s, 4))
  {
    assert done + (Bytes(Bits(s)) + AllOctets(After(s, 4))) == done + Bytes(Bits(s)) + AllOctets(After(s, 4));
  }

  lemma OutLenFits(s: string)
    ensures AllOctets("") == [] && Readable("") && OutLen(s) <= |AllOctets(s)|
  {}

  lemma DecodeStart(s: string)
    ensures s == "" ==> Decoded(s) == Ok([])
    ensures s != "" && OutLen(s) < 0 ==> Decoded(s) == Err(LengthError)
    ensures After(s, 0) == s && [] + AllOctets(s) == AllOctets(s) && AllOctets("") == [] && Readable("")
    ensures OutLen(s) >= 0 ==> First<byte>([], OutLen(s)) == []
  {}

  lemma DecodeStops(s: string)
    requires s != "" && OutLen(s) >= 0 && !Readable(s)
    ensures Decoded(s) == Err(InvalidCharacter)
  {}

  lemma DecodeEnds(s: string, out: seq<byte>, done: seq<byte>)
    requires s != "" && OutLen(s) >= 0 && Readable(s) && AllOctets(s) == done && out == First(done, OutLen(s))
    ensures Decoded(s) == Ok(out)
  {
    OutLenFits(s);
    assert done[..|done|] == done;
  }

  /** base64_decode. */
  method Base64Decode(encoded: string) returns (r: Result<seq<byte>, DecodeError>)
    ensures r == Decoded(encoded)
  {
    hide Bytes, FromSextets, TableEntry, SextetAt, ReadableAt, Readable, AllOctets, First, Decoded;
    DecodeStart(encoded);
    if |encoded| == 0 { return Ok([]); }
    var padding := 0;
    if |encoded| >= 1 && encoded[|encoded| - 1] == '=' { padding := padding + 1; }
    if |encoded| >= 2 && encoded[|encoded| - 2] == '=' { padding := padding + 1; }
    if |encoded| / 4 * 3 < padding { return Err(LengthError); }
    var outLen: nat := |encoded| / 4 * 3 - padding;
    var out: seq<byte> := [];
    ghost var done: seq<byte> := [];
    var i := 0;
    while i < |encoded|
      invariant 0 <= i
      invariant Readable(encoded) <==> Readable(After(encoded, i))
      invariant AllOctets(encoded) == done + AllOctets(After(encoded, i))
      invariant out == First(done, outLen)
    {
      ghost var rest := After(encoded, i);
      ReadableSplit(rest);
      OctetsStep(done, rest);
      var sextet := new nat[4](_ => 0);
      var j := 0;
      while j < 4
        invariant 0 <= j <= 4
        invariant forall k :: 0 <= k < j ==> ReadableAt(rest, k)
        invariant forall k :: 0 <= k < j ==> sextet[k] == SextetAt(rest, k)
        invariant forall k :: j <= k < 4 ==> sextet[k] == 0
      {
        SextetCases(encoded, i, j);
        if i + j < |encoded| && encoded[i + j] != '=' {
          var v := TableEntry(encoded[i + j]);
          if v == 0xFF {
            DecodeStops(encoded);
            return Err(InvalidCharacter);
          }
          sextet[j] := v;
        }
        j := j + 1;
      }
      var triple := FromSextets(sextet[0], sextet[1], sextet[2], sextet[3]);
      out := PushOctets(out, outLen, triple, done);
      done := done + Bytes(triple);
      AfterAfter(encoded, i, 4);
      i := i + 4;
    }
    assert done + [] == done;
    DecodeEnds(encoded, out, done);
    return Ok(out);
  }

  // ----- round trips -----

  /** A group of four letters, of which `=` may replace the last one or two. */
  predicate GoodGroup(g: string) {
    && |g| == 4
    && IsLetter(g[0]) && IsLetter(g[1])
    && (IsLetter(g[2]) || (g[2] == '=' && g[3] == '='))
    && (IsLetter(g[3]) || g[3] == '=')
  }

  /** RFC 4648 section 4 shape: whole groups, `=` only at the very end. */
  predicate WellFormed(s: string)
    decreases |s|
  {
    s == "" || (GoodGroup(First(s, 4)) && (|s| > 4 ==> IsLetter(s[3])) && WellFormed(After(s, 4)))
  }

  /** The group with the bits that padding leaves unused set to zero. */
  function ZeroGroup(g: string): string
    requires GoodGroup(g)
  {
    if g[2] == '=' then [g[0], Letter(TableEntry(g[1]) / 16 * 16), '=', '=']
    else if g[3] == '=' then [g[0], g[1], Letter(TableEntry(g[2]) / 4 * 4), '=']
    else g
  }

  /** `s` with its unused pad bits set to zero. */
  function ZeroPadBits(s: string): string
    requires WellFormed(s)
    decreases |s|
  {
    if s == "" then "" else ZeroGroup(First(s, 4)) + ZeroPadBits(After(s, 4))
  }

  /** RFC 4648 section 3.5: well formed, and the unused bits are zero. */
  predicate Canonical(s: string) { WellFormed(s) && ZeroPadBits(s) == s }

  /** The octets a group carries once padding is dropped. */
  ghost function GroupOctets(g: string): (o: seq<byte>)
    ensures |o| == 3 - Padding(g)
  {
    Bytes(Bits(g))[..3 - Padding(g)]
  }

  /** The bytes of a well-formed string, group by group. */
  ghost function Plain(s: string): seq<byte>
    decreases |s|
  {
    if s == "" then [] else GroupOctets(First(s, 4)) + Plain(After(s, 4))
  }

  lemma {:induction false} WellFormedShape(s: string)
    requires WellFormed(s)
    ensures |s| % 4 == 0 && Readable(s) && OutLen(s) >= 0
    decreases |s|
  {
    hide IsLetter, GoodGroup, ReadableAt, Readable;
    if s == "" {
      assert Readable("") by { OutLenFits(s); }
    } else {
      WellFormedShape(After(s, 4));
      GoodGroupReads(s);
      ReadableSplit(s);
    }
  }

  lemma GoodGroupReads(s: string)
    requires GoodGroup(First(s, 4))
    ensures |s| >= 4 && ReadableAt(s, 0) && ReadableAt(s, 1) && ReadableAt(s, 2) && ReadableAt(s, 3)
  {
    var g := First(s, 4);
    assert g[0] == s[0] && g[1] == s[1] && g[2] == s[2] && g[3] == s[3];
  }

  /** On well-formed input the truncated output is the groups' own octets. */
  lemma DecodedIsPlain(s: string)
    requires WellFormed(s)
    ensures Decoded(s) == Ok(Plain(s))
  {
    WellFormedShape(s);
    PlainIsPrefix(s);
  }

  lemma {:induction false} PlainIsPrefix(s: string)
    requires WellFormed(s)
    ensures 0 <= OutLen(s) <= |AllOctets(s)| && AllOctets(s)[..OutLen(s)] == Plain(s)
    decreases |s|
  {
    hide Bytes, Bits, Padding, GoodGroup, IsLetter;
    OutLenFits(s);
    WellFormedShape(s);
    if |s| > 4 {
      var rest := After(s, 4);
      PlainIsPrefix(rest);
      OutLenStep(s);
      FirstBits(s);
      SliceAfter(Bytes(Bits(s)), AllOctets(rest), OutLen(rest));
    } else if |s| == 4 {
      assert AllOctets(s) == Bytes(Bits(s)) + [] == Bytes(Bits(s));
      assert Plain(s) == GroupOctets(s) + [] == GroupOctets(s);
    }
  }

  lemma SliceAfter<T>(head: seq<T>, tail: seq<T>, k: nat)
    requires k <= |tail|
    ensures (head + tail)[..|head| + k] == head + tail[..k]
  {}

  lemma OutLenStep(s: string)
    requires WellFormed(s) && |s| > 4
    ensures OutLen(s) == 3 + OutLen(After(s, 4)) && Padding(First(s, 4)) == 0
  {
    hide IsLetter, WellFormed;
    var rest := After(s, 4);
    FirstGroup(s);
    WellFormedShape(rest);
    assert First(s, 4)[2] == s[2] && First(s, 4)[3] == s[3];
    assert rest[|rest| - 1] == s[|s| - 1] && rest[|rest| - 2] == s[|s| - 2];
  }

  lemma FirstGroup(s: string)
    requires WellFormed(s) && |s| > 4
    ensures WellFormed(After(s, 4)) && s[2] != '=' && s[3] != '='
  {}

  lemma FirstBits(s: string)
    ensures Bits(First(s, 4)) == Bits(s)
  {
    assert forall k :: 0 <= k < 4 ==> SextetAt(First(s, 4), k) == SextetAt(s, k);
  }

  lemma BytesOfTriple(a: byte, b: byte, c: byte)
    ensures Bytes(Triple(a, b, c)) == [a, b, c]
  {
    var n := Triple(a, b, c);
    assert n / 0x100 == a as int * 0x100 + b as int;
    assert n / 0x10000 == a;
  }

  lemma GroupRoundTrip(d: seq<byte>)
    requires 0 < |d| <= 3
    ensures GoodGroup(Group(d)) && ZeroGroup(Group(d)) == Group(d)
    ensures GroupOctets(Group(d)) == d
    ensures IsLetter(Group(d)[3]) <==> |d| == 3
  {
    hide GoodGroup, ZeroGroup, Padding, Bits, Bytes, Letter, Letters, TableEntry, IsLetter, FromSextets;
    var b: byte := if |d| > 1 then d[1] else 0;
    var c: byte := if |d| > 2 then d[2] else 0;
    var n := Triple(d[0], b, c);
    SextetsByDivision(n);
    var p, q, r, s := n / 0x40000 % 64, n / 0x1000 % 64, n / 0x40 % 64, n % 64;
    LettersOf(n, p, q, r, s);
    ShortTripleBits(d, p, q, r, s);
    BytesOfTriple(d[0], b, c);
    PaddedLetters(p, q, r, s, |d|);
    assert Group(d) == LettersThen(p, q, r, s, |d|);
  }

  /** The first |d| + 1 of four letters, then `=`. */
  ghost function LettersThen(p: nat, q: nat, r: nat, s: nat, octets: nat): (g: string)
    requires p < 64 && q < 64 && r < 64 && s < 64
    ensures |g| == 4
  {
    [Letter(p), Letter(q), if octets < 2 then '=' else Letter(r), if octets < 3 then '=' else Letter(s)]
  }

  lemma PaddedLetters(p: nat, q: nat, r: nat, s: nat, octets: nat)
    requires p < 64 && q < 64 && r < 64 && s < 64 && 0 < octets <= 3
    requires octets < 3 ==> s == 0 && r / 4 * 4 == r
    requires octets == 1 ==> r == 0 && q / 16 * 16 == q
    ensures var g := LettersThen(p, q, r, s, octets);
            && GoodGroup(g) && ZeroGroup(g) == g && Padding(g) == 3 - octets
            && Bits(g) == FromSextets(p, q, r, s) && (IsLetter(g[3]) <==> octets == 3)
  {
    hide Letter, TableEntry, FromSextets;
    TableInvertsAlphabet(p);
    TableInvertsAlphabet(q);
    TableInvertsAlphabet(r);
    TableInvertsAlphabet(s);
    PaddingIsNoLetter();
  }

  lemma PaddingIsNoLetter()
    ensures !IsLetter('=')
  {}

  /** A short final group leaves the low sextets, and low bits, zero. */
  lemma ShortTripleBits(d: seq<byte>, p: nat, q: nat, r: nat, s: nat)
    requires 0 < |d| <= 3
    requires AreSextets(Triple(d[0], if |d| > 1 then d[1] else 0, if |d| > 2 then d[2] else 0), p, q, r, s)
    ensures |d| < 3 ==> s == 0 && r / 4 * 4 == r
    ensures |d| == 1 ==> r == 0 && q / 16 * 16 == q
  {
    var b := if |d| > 1 then d[1] else 0;
    if |d| < 3 { SextetsUnique(p, q, r, s, d[0] / 4, d[0] % 4 * 16 + b / 16, b % 16 * 4, 0); }
  }

  lemma GroupDecodeEncode(g: string)
    requires GoodGroup(g)
    ensures GroupOctets(g) != [] && Group(GroupOctets(g)) == ZeroGroup(g)
  {
    hide Letters, Letter, Bytes, FromSextets;
    var p, q, r, s := SextetAt(g, 0), SextetAt(g, 1), SextetAt(g, 2), SextetAt(g, 3);
    AlphabetInvertsTable(g[0]);
    AlphabetInvertsTable(g[1]);
    if g[2] != '=' { AlphabetInvertsTable(g[2]); }
    if g[3] != '=' { AlphabetInvertsTable(g[3]); }
    var n := Bits(g);
    var o := Bytes(n);
    TruncatedTriples(p, q, r, s, o[0], o[1], o[2]);
    if g[2] == '=' {
      LettersOf(Triple(o[0], 0, 0), p, q / 16 * 16, 0, 0);
      assert GroupOctets(g) == [o[0]];
    } else if g[3] == '=' {
      LettersOf(Triple(o[0], o[1], 0), p, q, r / 4 * 4, 0);
      assert GroupOctets(g) == [o[0], o[1]];
    } else {
      LettersOf(n, p, q, r, s);
      assert GroupOctets(g) == o;
    }
  }

  lemma TruncatedTriples(p: nat, q: nat, r: nat, s: nat, a: byte, b: byte, c: byte)
    requires p < 64 && q < 64 && r < 64 && s < 64
    requires [a, b, c] == Bytes(FromSextets(p, q, r, s))
    ensures Triple(a, b, c) == FromSextets(p, q, r, s)
    ensures Triple(a, b, 0) == FromSextets(p, q, r / 4 * 4, 0)
    ensures Triple(a, 0, 0) == FromSextets(p, q / 16 * 16, 0, 0)
  {
    var a': byte, b': byte, c': byte := p * 4 + q / 16, q % 16 * 16 + r / 4, r % 4 * 64 + s;
    BytesOfTriple(a', b', c');
    assert [a, b, c][0] == a' && [a, b, c][1] == b' && [a, b, c][2] == c';
  }

  /** Decoding what was encoded gives the bytes back, and encodings are canonical. */
  lemma {:induction false} EncodeThenDecode(d: seq<byte>)
    ensures Canonical(Encoded(d)) && Decoded(Encoded(d)) == Ok(d)
  {
    PlainOfEncoded(d);
    DecodedIsPlain(Encoded(d));
  }

  lemma {:induction false} PlainOfEncoded(d: seq<byte>)
    ensures Canonical(Encoded(d)) && Plain(Encoded(d)) == d
    decreases |d|
  {
    if d != [] {
      var rest := After(d, 3);
      PlainOfEncoded(rest);
      GroupRoundTrip(First(d, 3));
      var s, g := Encoded(d), Group(First(d, 3));
      assert First(s, 4) == g && After(s, 4) == Encoded(rest);
      assert d == First(d, 3) + rest;
    }
  }

  /** Re-encoding what was decoded zeroes the unused pad bits and nothing else. */
  lemma {:induction false} DecodeThenEncode(s: string)
    requires WellFormed(s)
    ensures Decoded(s).Ok? && Encoded(Decoded(s).value) == ZeroPadBits(s)
  {
    DecodedIsPlain(s);
    EncodedOfPlain(s);
  }

  lemma {:induction false} EncodedOfPlain(s: string)
    requires WellFormed(s)
    ensures Encoded(Plain(s)) == ZeroPadBits(s)
    decreases |s|
  {
    hide GoodGroup, GroupOctets, ZeroGroup, Group, IsLetter, First;
    if s == "" {
      assert Encoded([]) == "";
    } else {
      var g, rest := First(s, 4), After(s, 4);
      EncodedOfPlain(rest);
      GroupDecodeEncode(g);
      if |s| > 4 { OutLenStep(s); }
      SplitOctets(GroupOctets(g), Plain(rest));
    }
  }

  lemma SplitOctets(head: seq<byte>, tail: seq<byte>)
    requires 0 < |head| <= 3 && (tail == [] || |head| == 3)
    ensures First(head + tail, 3) == head && After(head + tail, 3) == tail && head + tail != []
  {}

  /** The exact inputs on which decoding and encoding undo each other. */
  lemma RoundTripIffCanonical(s: string)
    ensures (Decoded(s).Ok? && Encoded(Decoded(s).value) == s) <==> Canonical(s)
  {
    if Canonical(s) {
      DecodeThenEncode(s);
    }
    if Decoded(s).Ok? && Encoded(Decoded(s).value) == s {
      EncodeThenDecode(Decoded(s).value);
    }
  }

  // ----- malformed input, and the RFC's own examples -----

  lemma AlphabetMembers(c: char)
    ensures IsLetter(c) <==> c in ALPHABET
  {
    if IsLetter(c) {
      AlphabetInvertsTable(c);
      AlphabetByRange(TableEntry(c));
    }
    if c in ALPHABET {
      var i :| 0 <= i < |ALPHABET| && ALPHABET[i] == c;
      AlphabetByRange(0);
      AlphabetByRange(i);
      TableInvertsAlphabet(i);
    }
  }

  /** One of the last two characters of a text shorter than a group is `=`. */
  predicate TooShortForPadding(s: string) {
    0 < |s| < 4 && (s[|s| - 1] == '=' || (|s| > 1 && s[|s| - 2] == '='))
  }

  predicate Stray(c: char) { c != '=' && c !in ALPHABET }

  /** Over all strings: which are rejected, for which reason, and how many
      octets the others give. */
  lemma DecodeRejects(s: string)
    ensures Decoded(s) == Err(LengthError) <==> TooShortForPadding(s)
    ensures Decoded(s) == Err(InvalidCharacter) <==> !TooShortForPadding(s) && exists c :: c in s && Stray(c)
    ensures Decoded(s).Ok? && s != "" ==> |Decoded(s).value| == |s| / 4 * 3 - Padding(s)
  {
    hide AllOctets, IsLetter, ALPHABET, Padding, Readable;
    OutLenFits(s);
    ShortPadding(s);
    ReadableMeans(s);
  }

  lemma ShortPadding(s: string)
    ensures OutLen(s) < 0 <==> TooShortForPadding(s)
  {}

  lemma ReadableMeans(s: string)
    ensures Readable(s) <==> !exists c :: c in s && Stray(c)
  {
    hide IsLetter, ALPHABET;
    if c :| c in s && Stray(c) {
      var k :| 0 <= k < |s| && s[k] == c;
      AlphabetMembers(c);
      assert !ReadableAt(s, k);
    } else {
      forall k | 0 <= k < |s| ensures ReadableAt(s, k) {
        AlphabetMembers(s[k]);
        assert s[k] in s;
      }
    }
  }

  lemma GroupOf(a: byte, b: byte, c: byte, p: nat, q: nat, r: nat, s: nat)
    requires p < 64 && q < 64 && r < 64 && s < 64 && Triple(a, b, c) == FromSextets(p, q, r, s)
    ensures Encoded([a, b, c]) == [Letter(p), Letter(q), Letter(r), Letter(s)]
    ensures c == 0 ==> Encoded([a, b]) == [Letter(p), Letter(q), Letter(r), '=']
    ensures b == c == 0 ==> Encoded([a]) == [Letter(p), Letter(q), '=', '=']
  {
    hide Letter, Letters, FromSextets, Triple;
    LettersOf(Triple(a, b, c), p, q, r, s);
    EncodedGroup([a, b, c]);
    EncodedGroup([a, b]);
    EncodedGroup([a]);
  }

  lemma EncodedGroup(d: seq<byte>)
    requires 0 < |d| <= 3
    ensures Encoded(d) == Group(d)
  {
    hide Group;
    assert First(d, 3) == d && After(d, 3) == [];
    assert Group(d) + "" == Group(d);
  }

  /** "f", "fo" and "foo" (RFC 4648, section 10). */
  lemma RfcExamples()
    ensures Encoded([0x66]) == "Zg==" && Encoded([0x66, 0x6F]) == "Zm8=" && Encoded([0x66, 0x6F, 0x6F]) == "Zm9v"
  {
    hide Encoded;
    GroupOf(0x66, 0, 0, 25, 32, 0, 0);
    GroupOf(0x66, 0x6F, 0, 25, 38, 60, 0);
    GroupOf(0x66, 0x6F, 0x6F, 25, 38, 61, 47);
  }
}
