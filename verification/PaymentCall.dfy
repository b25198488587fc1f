/** From a daemon prepare response to the two `cast` invocations that pay it:
    validate_signing_request (antd-cpp/examples/external_signer_util.hpp) and
    external_signer_pay (antd-cpp/examples/07-external-signer.cpp). */
module PaymentCall {
  import opened Text
  import opened PaymentFields
  import Argv
  import Decimal

  datatype PaymentInfo = PaymentInfo(quoteHash: string, rewardsAddress: string, amount: string)

  datatype BadField = RpcUrl | VaultAddress | TokenAddress
                    | RewardsAddress(at: nat) | Amount(at: nat) | QuoteHash(at: nat)

  datatype Request = Request(rpcUrl: string, vault: string, token: string, payments: seq<PaymentInfo>)

  // ----- validation -----

  predicate PrintableAscii(c: char) { 0x20 < c as int < 0x7f }

  predicate HttpUrl(s: string) {
    && (("http://" <= s && |s| > 7) || ("https://" <= s && |s| > 8))
    && |s| <= 2048
    && forall k :: 0 <= k < |s| ==> PrintableAscii(s[k])
  }

  predicate ValidPayment(p: PaymentInfo) {
    EvmAddress(p.rewardsAddress) && DecimalUint256(p.amount) && Bytes32(p.quoteHash)
  }

  predicate ValidRequest(r: Request) {
    && HttpUrl(r.rpcUrl) && EvmAddress(r.vault) && EvmAddress(r.token)
    && forall i :: 0 <= i < |r.payments| ==> ValidPayment(r.payments[i])
  }

  /** `f` names a bad field, and every field checked before it is good. */
  ghost predicate FirstBad(r: Request, f: BadField) {
    match f
    case RpcUrl => !HttpUrl(r.rpcUrl)
    case VaultAddress => HttpUrl(r.rpcUrl) && !EvmAddress(r.vault)
    case TokenAddress => HttpUrl(r.rpcUrl) && EvmAddress(r.vault) && !EvmAddress(r.token)
    case RewardsAddress(i) => PaymentsGoodUpTo(r, i) && !EvmAddress(r.payments[i].rewardsAddress)
    case Amount(i) => PaymentsGoodUpTo(r, i) && EvmAddress(r.payments[i].rewardsAddress)
                      && !DecimalUint256(r.payments[i].amount)
    case QuoteHash(i) => PaymentsGoodUpTo(r, i) && EvmAddress(r.payments[i].rewardsAddress)
                         && DecimalUint256(r.payments[i].amount) && !Bytes32(r.payments[i].quoteHash)
  }

  ghost predicate PaymentsGoodUpTo(r: Request, i: nat) {
    i < |r.payments| && ValidRequest(r.(payments := r.payments[..i]))
  }

  method IsHttpUrl(s: string) returns (ok: bool)
    ensures ok <==> HttpUrl(s)
  {
    var scheme := 0;
    if "http://" <= s {
      scheme := 7;
    } else if "https://" <= s {
      scheme := 8;
    } else {
      return false;
    }
    if |s| == scheme || |s| > 2048 { return false; }
    for i := 0 to |s|
      invariant forall k :: 0 <= k < i ==> PrintableAscii(s[k])
    {
      if !PrintableAscii(s[i]) { return false; }
    }
    return true;
  }

  predicate AllPrintable(s: string) { forall k :: 0 <= k < |s| ==> PrintableAscii(s[k]) }

  /** Which texts are accepted after "http://". */
  lemma HttpLimits(rest: string)
    ensures HttpUrl("http://" + rest) <==> 1 <= |rest| <= 2041 && AllPrintable(rest)
  {
    var s := "http://" + rest;
    assert s[..7] == "http://" && s[4] == ':';
    assert forall k :: 0 <= k < 7 ==> PrintableAscii("http://"[k]);
    Printable(s, "http://", rest);
  }

  /** And after "https://". */
  lemma HttpsLimits(rest: string)
    ensures HttpUrl("https://" + rest) <==> 1 <= |rest| <= 2040 && AllPrintable(rest)
  {
    var s := "https://" + rest;
    assert s[..8] == "https://" && s[4] == 's';
    assert forall k :: 0 <= k < 8 ==> PrintableAscii("https://"[k]);
    Printable(s, "https://", rest);
  }

  lemma Printable(s: string, head: string, rest: string)
    requires s == head + rest && AllPrintable(head)
    ensures AllPrintable(s) <==> AllPrintable(rest)
  {
    assert forall k :: 0 <= k < |rest| ==> rest[k] == s[|head| + k];
  }

  /** No other scheme is, and nothing outside printable ASCII, a space included. */
  lemma UrlRejects(s: string)
    ensures !("http" <= s) ==> !HttpUrl(s)
    ensures (exists c :: c in s && (c as int <= 32 || c as int >= 127)) ==> !HttpUrl(s)
  {
    assert "http" <= "http://" && "http" <= "https://";
  }

  /** validate_signing_request: accepts exactly the valid requests and names
      the first bad field of any other. */
  method ValidateSigningRequest(r: Request) returns (bad: Option<BadField>)
    ensures bad == None <==> ValidRequest(r)
    ensures bad.Some? ==> FirstBad(r, bad.value)
  {
    var ok := IsHttpUrl(r.rpcUrl);
    if !ok { return Some(RpcUrl); }
    ok := IsEvmAddress(r.vault);
    if !ok { return Some(VaultAddress); }
    ok := IsEvmAddress(r.token);
    if !ok { return Some(TokenAddress); }
    for i := 0 to |r.payments|
      invariant forall k :: 0 <= k < i ==> ValidPayment(r.payments[k])
    {
      var p := r.payments[i];
      ok := IsEvmAddress(p.rewardsAddress);
      if !ok { return Some(RewardsAddress(i)); }
      ok := IsDecimalUint256(p.amount);
      if !ok { return Some(Amount(i)); }
      ok := IsBytes32Hex(p.quoteHash);
      if !ok { return Some(QuoteHash(i)); }
    }
    return None;
  }

  // ----- the tuple argument -----

  function Normalised(quoteHash: string): string {
    if "0x" <= quoteHash then quoteHash else "0x" + quoteHash
  }

  function NormalisedPayment(p: PaymentInfo): PaymentInfo { p.(quoteHash := Normalised(p.quoteHash)) }

  function NormalisedPayments(ps: seq<PaymentInfo>): (r: seq<PaymentInfo>)
    ensures |r| == |ps|
  {
    if ps == [] then [] else [NormalisedPayment(ps[0])] + NormalisedPayments(ps[1..])
  }

  function TupleText(p: PaymentInfo): string {
    "(" + p.rewardsAddress + "," + p.amount + "," + Normalised(p.quoteHash) + ")"
  }

  /** The tuples and the closing bracket, comma first unless at the start. */
  function TuplesFrom(ps: seq<PaymentInfo>, start: bool): string {
    if ps == [] then "]"
    else (if start then "" else ",") + (TupleText(ps[0]) + TuplesFrom(ps[1..], false))
  }

  function TuplesText(ps: seq<PaymentInfo>): string { "[" + TuplesFrom(ps, true) }

  method BuildTuples(payments: seq<PaymentInfo>) returns (tuples: string)
    ensures tuples == TuplesText(payments)
  {
    tuples := "[";
    var i := 0;
    while i < |payments|
      invariant 0 <= i <= |payments|
      invariant TuplesText(payments) == tuples + TuplesFrom(payments[i..], i == 0)
    {
      var p := payments[i];
      var qh := p.quoteHash;
      if !("0x" <= qh) { qh := "0x" + qh; }
      ghost var before := tuples;
      if i != 0 { tuples := tuples + ","; }
      tuples := tuples + ("(" + p.rewardsAddress + "," + p.amount + "," + qh + ")");
      TuplesStep(payments, i, before, tuples);
      i := i + 1;
    }
    assert payments[i..] == [];
    tuples := tuples + "]";
  }

  lemma TuplesStep(ps: seq<PaymentInfo>, i: nat, before: string, after: string)
    requires i < |ps|
    requires after == (if i != 0 then before + "," else before) + TupleText(ps[i])
    ensures before + TuplesFrom(ps[i..], i == 0) == after + TuplesFrom(ps[i + 1..], false)
  {
    hide TupleText;
    assert ps[i..][1..] == ps[i + 1..] && ps[i..][0] == ps[i];
  }

  /** The argument for two payments, as `cast` is given it. */
  lemma TuplesExample()
    ensures TuplesText([PaymentInfo("0xq", "0xr", "7"), PaymentInfo("s", "0xt", "8")])
         == "[(0xr,7,0xq)" + ",(0xt,8,0xs)]"
  {
    var p, q := PaymentInfo("0xq", "0xr", "7"), PaymentInfo("s", "0xt", "8");
    hide TupleText;
    TupleExamples();
    TwoTuples(p, q);
    assert "[" + ("(0xr,7,0xq)" + ("," + ("(0xt,8,0xs)" + "]"))) == "[(0xr,7,0xq)" + ",(0xt,8,0xs)]";
  }

  lemma TwoTuples(p: PaymentInfo, q: PaymentInfo)
    ensures TuplesText([p, q]) == "[" + (TupleText(p) + ("," + (TupleText(q) + "]")))
  {
    hide TupleText;
    assert [p, q][1..] == [q] && [q][1..] == [];
    assert TuplesFrom([q], false) == "," + (TupleText(q) + TuplesFrom([], false));
  }

  lemma TupleExamples()
    ensures TupleText(PaymentInfo("0xq", "0xr", "7")) == "(0xr,7,0xq)"
    ensures TupleText(PaymentInfo("s", "0xt", "8")) == "(0xt,8,0xs)"
  {}

  /** A reader of the argument: a bracketed list of parenthesised triples, each
      field running up to the separator that follows it. */
  function ParseElements(s: string): Option<seq<PaymentInfo>>
    decreases |s|
  {
    if s == "" || s[0] != '(' then None
    else
      var a := Cut(s[1..], ',');
      if a.None? then None else
      var b := Cut(a.value.1, ',');
      if b.None? then None else
      var c := Cut(b.value.1, ')');
      if c.None? then None else
      var p := PaymentInfo(c.value.0, a.value.0, b.value.0);
      var rest := c.value.1;
      if rest == "" then None
      else if rest == "]" then Some([p])
      else if rest[0] != ',' then None
      else
        var more := ParseElements(rest[1..]);
        if more.None? then None else Some([p] + more.value)
  }

  function ParseTuples(s: string): Option<seq<PaymentInfo>> {
    if s == "[]" then Some([])
    else if s != "" && s[0] == '[' then ParseElements(s[1..])
    else None
  }

  /** Each field stops short of the separator that ends it in the text. */
  predicate PlainPayment(p: PaymentInfo) {
    ',' !in p.rewardsAddress && ',' !in p.amount && ')' !in p.quoteHash
  }

  predicate PlainPayments(ps: seq<PaymentInfo>) {
    forall i :: 0 <= i < |ps| ==> PlainPayment(ps[i])
  }

  lemma ParseOneTuple(p: PaymentInfo, rest: string)
    requires PlainPayment(p)
    ensures var s := TupleText(p) + rest;
            && s != "" && s[0] == '(' && Cut(s[1..], ',').Some?
            && var a := Cut(s[1..], ',').value;
            && a.0 == p.rewardsAddress && Cut(a.1, ',').Some?
            && var b := Cut(a.1, ',').value;
            && b.0 == p.amount && Cut(b.1, ')') == Some((Normalised(p.quoteHash), rest))
  {
    var s := TupleText(p) + rest;
    var tail2 := Normalised(p.quoteHash) + ")" + rest;
    var tail1 := p.amount + "," + tail2;
    assert s[1..] == p.rewardsAddress + "," + tail1;
    assert ',' in "()[]," && ')' in "()[],";
    CutAt(p.rewardsAddress, ',', tail1);
    CutAt(p.amount, ',', tail2);
    NormalisedIsPlain(p.quoteHash);
    CutAt(Normalised(p.quoteHash), ')', rest);
  }

  lemma NormalisedIsPlain(qh: string)
    ensures ')' in Normalised(qh) <==> ')' in qh
  {
    if !("0x" <= qh) {
      assert forall c :: c in qh ==> c in Normalised(qh);
    }
  }

  lemma {:induction false} ParsePrintedElements(ps: seq<PaymentInfo>)
    requires ps != [] && PlainPayments(ps)
    ensures ParseElements(TuplesFrom(ps, true)) == Some(NormalisedPayments(ps))
    ensures TuplesFrom(ps, false) == "," + TuplesFrom(ps, true)
  {
    hide TupleText, Cut, Normalised, PlainPayment;
    var rest := TuplesFrom(ps[1..], false);
    ParseOneTuple(ps[0], rest);
    assert TuplesFrom(ps, true) == TupleText(ps[0]) + rest;
    if |ps| > 1 {
      ParsePrintedElements(ps[1..]);
      assert rest == "," + TuplesFrom(ps[1..], true);
      assert rest[1..] == TuplesFrom(ps[1..], true) && |rest| > 1;
    } else {
      assert NormalisedPayments(ps[1..]) == [];
      assert NormalisedPayments(ps) == [NormalisedPayment(ps[0])];
    }
  }

  lemma {:induction false} ParsedElementsArePlain(s: string)
    ensures ParseElements(s).Some? ==> PlainPayments(ParseElements(s).value)
    decreases |s|
  {
    hide Cut, PlainPayment;
    if ParseElements(s).Some? {
      var a := Cut(s[1..], ',').value;
      var b := Cut(a.1, ',').value;
      var c := Cut(b.1, ')').value;
      var p, rest := PaymentInfo(c.0, a.0, b.0), c.1;
      FieldsOfCuts(p);
      assert ParseElements(s).value[0] == p;
      if rest != "]" {
        ParsedElementsArePlain(rest[1..]);
        assert ParseElements(s).value[1..] == ParseElements(rest[1..]).value;
        PlainCons(ParseElements(s).value);
      }
    }
  }

  lemma FieldsOfCuts(p: PaymentInfo)
    requires ',' !in p.rewardsAddress && ',' !in p.amount && ')' !in p.quoteHash
    ensures PlainPayment(p)
  {}

  lemma PlainCons(ps: seq<PaymentInfo>)
    requires ps != [] && PlainPayment(ps[0]) && PlainPayments(ps[1..])
    ensures PlainPayments(ps)
  {
    forall i | 0 <= i < |ps| ensures PlainPayment(ps[i]) {
      if i > 0 { assert ps[i] == ps[1..][i - 1]; }
    }
  }

  lemma {:induction false} NormalisedAt(ps: seq<PaymentInfo>, i: nat)
    requires i < |ps|
    ensures NormalisedPayments(ps)[i] == NormalisedPayment(ps[i])
  {
    if i > 0 { NormalisedAt(ps[1..], i - 1); }
  }

  lemma PlainBefore(p: PaymentInfo)
    requires PlainPayment(NormalisedPayment(p))
    ensures PlainPayment(p)
  {
    NormalisedIsPlain(p.quoteHash);
  }

  lemma TuplesOpen(ps: seq<PaymentInfo>)
    requires ps != []
    ensures var s := TuplesText(ps); |s| > 1 && s[0] == '[' && s[1] == '(' && s[1..] == TuplesFrom(ps, true)
  {
    hide Normalised;
    var s := TuplesText(ps);
    assert s[1..] == TuplesFrom(ps, true);
    assert TuplesFrom(ps, true)[0] == TupleText(ps[0])[0];
  }

  /** The printed list reads back as the payments, quote hashes normalised,
      exactly when no field holds the separator that follows it. */
  lemma TuplesRoundTrip(ps: seq<PaymentInfo>)
    ensures ParseTuples(TuplesText(ps)) == Some(NormalisedPayments(ps)) <==> PlainPayments(ps)
  {
    if ps != [] {
      hide TuplesText, TuplesFrom, NormalisedPayments, ParseElements, PlainPayment, Normalised;
      var s := TuplesText(ps);
      TuplesOpen(ps);
      if PlainPayments(ps) {
        ParsePrintedElements(ps);
      }
      if ParseTuples(s) == Some(NormalisedPayments(ps)) {
        ParsedElementsArePlain(s[1..]);
        forall i | 0 <= i < |ps| ensures PlainPayment(ps[i]) {
          NormalisedAt(ps, i);
          assert PlainPayment(NormalisedPayments(ps)[i]);
          PlainBefore(ps[i]);
        }
      }
    }
  }

  // ----- a valid request survives the whole trip -----

  /** No character that structures the list. */
  predicate PlainField(s: string) { forall c :: c in s ==> c !in "()[]," }

  predicate HexOrPrefix(c: char) { IsHexDigit(c) || c == 'x' }

  lemma ValidFieldsArePlain(p: PaymentInfo)
    requires ValidPayment(p)
    ensures PlainPayment(p)
    ensures PlainField(p.rewardsAddress) && PlainField(p.amount) && PlainField(p.quoteHash)
    ensures Argv.NUL !in p.rewardsAddress && Argv.NUL !in p.amount && Argv.NUL !in p.quoteHash
  {
    HexIsPlain(p.rewardsAddress);
    HexIsPlain(p.quoteHash);
    forall c | c in p.amount ensures c !in "()[]," && c != Argv.NUL { assert Decimal.IsDigit(c); }
  }

  lemma HexIsPlain(s: string)
    requires EvmAddress(s) || Bytes32(s)
    ensures PlainField(s) && Argv.NUL !in s && s[0] != '-'
  {
    forall c | c in s ensures HexOrPrefix(c) {
      var k :| 0 <= k < |s| && s[k] == c;
      if "0x" <= s && k < 2 {
        assert s[0] == '0' && s[1] == 'x';
      } else if "0x" <= s {
        assert s[2..][k - 2] == c;
      }
    }
    assert forall c :: HexOrPrefix(c) ==> c !in "()[]," && c != Argv.NUL && c != '-';
    assert s[0] in s;
  }

  const APPROVE := "approve(address,uint256)"
  const PAY_FOR_QUOTES := "payForQuotes((address,uint256,bytes32)[])"

  /** cast_send's argument vector; `key` is the fixed development key. */
  function CastArgv(args: seq<string>, rpcUrl: string, key: string, gas: string): seq<string> {
    ["cast", "send"] + args + ["--rpc-url", rpcUrl, "--private-key", key, "--gas-limit", gas, "--json"]
  }

  function Repeat(c: char, n: nat): string { if n == 0 then "" else [c] + Repeat(c, n - 1) }

  const MAX_ALLOWANCE := "0x" + Repeat('f', 64)

  function ApproveArgv(r: Request, key: string): seq<string> {
    CastArgv([r.token, APPROVE, r.vault, MAX_ALLOWANCE], r.rpcUrl, key, "500000")
  }

  function PayArgv(r: Request, key: string): seq<string> {
    CastArgv([r.vault, PAY_FOR_QUOTES, TuplesText(r.payments)], r.rpcUrl, key, "1000000")
  }

  lemma {:induction false} RepeatAt(c: char, n: nat)
    ensures |Repeat(c, n)| == n && forall k :: 0 <= k < n ==> Repeat(c, n)[k] == c
  {
    if n > 0 { RepeatAt(c, n - 1); }
  }

  lemma {:induction false} RepeatHasNoNul(c: char, n: nat)
    requires c != Argv.NUL
    ensures Argv.NUL !in Repeat(c, n)
  {
    if n > 0 { RepeatHasNoNul(c, n - 1); }
  }

  lemma {:induction false} TuplesHaveNoNul(ps: seq<PaymentInfo>, start: bool)
    requires forall i :: 0 <= i < |ps| ==> ValidPayment(ps[i])
    ensures Argv.NUL !in TuplesFrom(ps, start)
  {
    if ps != [] {
      ValidFieldsArePlain(ps[0]);
      TuplesHaveNoNul(ps[1..], false);
    }
  }

  lemma CastArgvPrintable(args: seq<string>, rpcUrl: string, key: string, gas: string)
    requires Argv.NulFree(args) && HttpUrl(rpcUrl) && Argv.NUL !in key && Argv.NUL !in gas
    ensures Argv.Printable(CastArgv(args, rpcUrl, key, gas))
  {
    var argv := CastArgv(args, rpcUrl, key, gas);
    var tail := ["--rpc-url", rpcUrl, "--private-key", key, "--gas-limit", gas, "--json"];
    assert forall c :: c in rpcUrl ==> PrintableAscii(c);
    assert Argv.NulFree(tail);
    forall k | 0 <= k < |argv| ensures Argv.NUL !in argv[k] {
      if 2 <= k < 2 + |args| { assert argv[k] == args[k - 2]; }
      else if k >= 2 + |args| { assert argv[k] == tail[k - 2 - |args|]; }
    }
  }

  lemma SignaturesHaveNoNul()
    ensures Argv.NUL !in APPROVE && Argv.NUL !in PAY_FOR_QUOTES
  {}

  lemma RequestArgvsPrintable(r: Request, key: string)
    requires ValidRequest(r) && Argv.NUL !in key
    ensures Argv.Printable(ApproveArgv(r, key)) && Argv.Printable(PayArgv(r, key))
  {
    hide Repeat, APPROVE, PAY_FOR_QUOTES;
    HexIsPlain(r.vault);
    HexIsPlain(r.token);
    RepeatHasNoNul('f', 64);
    TuplesHaveNoNul(r.payments, true);
    SignaturesHaveNoNul();
    CastArgvPrintable([r.token, APPROVE, r.vault, MAX_ALLOWANCE], r.rpcUrl, key, "500000");
    CastArgvPrintable([r.vault, PAY_FOR_QUOTES, TuplesText(r.payments)], r.rpcUrl, key, "1000000");
  }

  lemma RequestPaymentsArePlain(r: Request)
    requires ValidRequest(r)
    ensures PlainPayments(r.payments)
  {
    forall i | 0 <= i < |r.payments| ensures PlainPayment(r.payments[i]) { ValidFieldsArePlain(r.payments[i]); }
  }

  lemma TupleArgument(r: Request, key: string)
    ensures |PayArgv(r, key)| > 4 && PayArgv(r, key)[4] == TuplesText(r.payments)
  {
    hide TuplesText;
  }

  lemma PrintableParts(argv: seq<string>)
    requires Argv.Printable(argv)
    ensures argv != [] && '"' !in argv[0] && Argv.NulFree(argv)
  {}

  /** For every valid request, both command lines parse back, under every
      rules variant, to the vectors `cast` was meant to get; the fifth argument
      of the second reads back as the payments, quote hashes normalised. */
  lemma ValidRequestSurvives(r: Request, key: string, rules: Argv.Rules)
    requires ValidRequest(r) && Argv.NUL !in key
    ensures Argv.Printable(ApproveArgv(r, key)) && Argv.Printable(PayArgv(r, key))
    ensures Argv.ParseCommandLine(Argv.Line(ApproveArgv(r, key)), rules) == ApproveArgv(r, key)
    ensures var received := Argv.ParseCommandLine(Argv.Line(PayArgv(r, key)), rules);
            received == PayArgv(r, key) && ParseTuples(received[4]) == Some(NormalisedPayments(r.payments))
  {
    hide Argv.Line, Argv.ParseCommandLine, Argv.Printable, ValidRequest;
    hide ApproveArgv, PayArgv, TuplesText, ParseTuples, NormalisedPayments;
    RequestArgvsPrintable(r, key);
    RequestPaymentsArePlain(r);
    PrintableParts(ApproveArgv(r, key));
    PrintableParts(PayArgv(r, key));
    Argv.CommandLineRoundTrip(ApproveArgv(r, key), rules);
    Argv.CommandLineRoundTrip(PayArgv(r, key), rules);
    TuplesRoundTrip(r.payments);
    TupleArgument(r, key);
  }

  /** No daemon-provided argument of a valid request can pass for an option. */
  lemma NothingReadsAsOption(r: Request)
    requires ValidRequest(r)
    ensures r.rpcUrl[0] != '-' && r.vault[0] != '-' && r.token[0] != '-' && TuplesText(r.payments)[0] != '-'
  {
    HexIsPlain(r.vault);
    HexIsPlain(r.token);
  }

  // ----- external_signer_pay -----

  /** How one `cast` run ends: it throws, or prints a receipt. */
  datatype CastRun = Failed | Receipt(txHash: string)

  datatype PayError = InvalidRequest(field: BadField) | CastFailed | BadTransactionHash

  /** cast_send: only a 32-byte hash of a receipt ever comes back, and what
      went wrong otherwise can be told apart. */
  method CastSend(run: CastRun) returns (r: Result<string, PayError>)
    ensures r.Ok? <==> Succeeds(run)
    ensures r.Ok? ==> Bytes32(r.value) && run == Receipt(r.value)
    ensures r.Err? ==> r.error in {CastFailed, BadTransactionHash} && (r.error == CastFailed <==> run.Failed?)
  {
    match run {
      case Failed => return Err(CastFailed);
      case Receipt(h) =>
        var ok := IsBytes32Hex(h);
        return if ok then Ok(h) else Err(BadTransactionHash);
    }
  }

  ghost predicate Succeeds(run: CastRun) { run.Receipt? && Bytes32(run.txHash) }

  lemma VectorWords(r: Request, key: string)
    ensures |ApproveArgv(r, key)| > 4 && ApproveArgv(r, key)[2] == r.token && ApproveArgv(r, key)[4] == r.vault
    ensures |PayArgv(r, key)| > 2 && PayArgv(r, key)[2] == r.vault
  {
    hide TuplesText;
  }

  /** `started` lists the vectors handed to run_capture, in order. */
  method ExternalSignerPay(r: Request, key: string, approve: CastRun, pay: CastRun)
    returns (out: Result<map<string, string>, PayError>, started: seq<seq<string>>)
    ensures r.payments == [] ==> out == Ok(map[]) && started == []
    ensures r.payments != [] && !ValidRequest(r) ==>
              out.Err? && out.error.InvalidRequest? && FirstBad(r, out.error.field) && started == []
    ensures r.payments != [] && ValidRequest(r) && out.Err? ==>
              out.error
              == if (if Succeeds(approve) then pay else approve).Failed? then CastFailed else BadTransactionHash
    ensures r.payments != [] && ValidRequest(r) ==>
              started == if Succeeds(approve) then [ApproveArgv(r, key), PayArgv(r, key)] else [ApproveArgv(r, key)]
    ensures started != [] ==> started[0][2] == r.token && started[0][4] == r.vault
    ensures |started| > 1 ==> started[1][2] == started[0][4]
    ensures r.payments != [] ==> (out.Ok? <==> ValidRequest(r) && Succeeds(approve) && Succeeds(pay))
    ensures out.Ok? ==> out.value.Keys == set i | 0 <= i < |r.payments| :: r.payments[i].quoteHash
    ensures out.Ok? ==> forall q :: q in out.value ==> pay.Receipt? && out.value[q] == pay.txHash
  {
    hide ValidRequest, Bytes32, TuplesText, CastArgv, FirstBad;
    VectorWords(r, key);
    var paid: map<string, string> := map[];
    if r.payments == [] { return Ok(paid), []; }
    var bad := ValidateSigningRequest(r);
    if bad.Some? { return Err(InvalidRequest(bad.value)), []; }
    started := [CastArgv([r.token, APPROVE, r.vault, MAX_ALLOWANCE], r.rpcUrl, key, "500000")];
    var approved := CastSend(approve);
    if approved.Err? { return Err(approved.error), started; }
    var tuples := BuildTuples(r.payments);
    started := started + [CastArgv([r.vault, PAY_FOR_QUOTES, tuples], r.rpcUrl, key, "1000000")];
    var sent := CastSend(pay);
    if sent.Err? { return Err(sent.error), started; }
    for i := 0 to |r.payments|
      invariant paid.Keys == set k | 0 <= k < i :: r.payments[k].quoteHash
      invariant forall q :: q in paid ==> paid[q] == sent.value
    {
      paid := paid[r.payments[i].quoteHash := sent.value];
    }
    return Ok(paid), started;
  }
}
