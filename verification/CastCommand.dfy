/** What the two `cast send` invocations of external_signer_pay
    (antd-cpp/examples/07-external-signer.cpp) ask for, by a reader of such
    command lines: target, signature, parameters, and options by name. */
module CastCommand {
  import opened Text
  import opened PaymentFields
  import opened PaymentCall
  import Argv

  /** The words that are no options, and the values of the options. */
  datatype Call = Call(words: seq<string>, rpcUrl: Option<string>, key: Option<string>, gas: Option<string>, json: bool)

  predicate IsOption(word: string) { word != "" && word[0] == '-' }

  function ReadWords(argv: seq<string>, c: Call): Option<Call>
    decreases |argv|
  {
    if argv == [] then Some(c)
    else if argv[0] == "--json" then ReadWords(argv[1..], c.(json := true))
    else if IsOption(argv[0]) then
      if |argv| == 1 then None
      else if argv[0] == "--rpc-url" then ReadWords(argv[2..], c.(rpcUrl := Some(argv[1])))
      else if argv[0] == "--private-key" then ReadWords(argv[2..], c.(key := Some(argv[1])))
      else if argv[0] == "--gas-limit" then ReadWords(argv[2..], c.(gas := Some(argv[1])))
      else None
    else ReadWords(argv[1..], c.(words := c.words + [argv[0]]))
  }

  function ReadSend(argv: seq<string>): Option<Call> {
    if |argv| >= 2 && argv[0] == "cast" && argv[1] == "send" then
      ReadWords(argv[2..], Call([], None, None, None, false))
    else None
  }

  predicate NoOption(words: seq<string>) { forall w :: w in words ==> !IsOption(w) }

  lemma {:induction false} ReadPlainWords(words: seq<string>, rest: seq<string>, c: Call)
    requires NoOption(words)
    ensures ReadWords(words + rest, c) == ReadWords(rest, c.(words := c.words + words))
  {
    if words == [] {
      assert words + rest == rest && c.words + words == c.words;
    } else {
      assert words[0] in words && (words + rest)[0] == words[0] && (words + rest)[1..] == words[1..] + rest;
      NoOptionTail(words);
      PlainWord(words + rest, c);
      ReadPlainWords(words[1..], rest, c.(words := c.words + [words[0]]));
      assert c.words + [words[0]] + words[1..] == c.words + words;
    }
  }

  lemma NoOptionTail(words: seq<string>)
    requires words != [] && NoOption(words)
    ensures NoOption(words[1..]) && !IsOption(words[0])
  {
    assert forall w :: w in words[1..] ==> w in words;
    assert words[0] in words;
  }

  lemma PlainWord(argv: seq<string>, c: Call)
    requires argv != [] && !IsOption(argv[0])
    ensures ReadWords(argv, c) == ReadWords(argv[1..], c.(words := c.words + [argv[0]]))
  {}

  lemma ReadOptions(rpcUrl: string, key: string, gas: string, c: Call)
    ensures ReadWords(["--rpc-url", rpcUrl, "--private-key", key, "--gas-limit", gas, "--json"], c)
         == Some(c.(rpcUrl := Some(rpcUrl), key := Some(key), gas := Some(gas), json := true))
  {
    var c1 := c.(rpcUrl := Some(rpcUrl));
    var c2 := c1.(key := Some(key));
    var c3 := c2.(gas := Some(gas));
    RpcUrlOption(rpcUrl, ["--private-key", key, "--gas-limit", gas, "--json"], c);
    KeyOption(key, ["--gas-limit", gas, "--json"], c1);
    GasOption(gas, ["--json"], c2);
    assert ReadWords([], c3.(json := true)) == Some(c3.(json := true));
    assert ["--json"][1..] == [];
  }

  lemma RpcUrlOption(value: string, rest: seq<string>, c: Call)
    ensures ReadWords(["--rpc-url", value] + rest, c) == ReadWords(rest, c.(rpcUrl := Some(value)))
  {
    var argv := ["--rpc-url", value] + rest;
    assert argv[0] == "--rpc-url" && argv[1] == value && argv[2..] == rest;
  }

  lemma KeyOption(value: string, rest: seq<string>, c: Call)
    ensures ReadWords(["--private-key", value] + rest, c) == ReadWords(rest, c.(key := Some(value)))
  {
    var argv := ["--private-key", value] + rest;
    assert argv[0] == "--private-key" && argv[1] == value && argv[2..] == rest;
  }

  lemma GasOption(value: string, rest: seq<string>, c: Call)
    ensures ReadWords(["--gas-limit", value] + rest, c) == ReadWords(rest, c.(gas := Some(value)))
  {
    var argv := ["--gas-limit", value] + rest;
    assert argv[0] == "--gas-limit" && argv[1] == value && argv[2..] == rest;
  }

  /** cast_send's vector asks for its arguments, with each option's own value. */
  lemma CastArgvReads(args: seq<string>, rpcUrl: string, key: string, gas: string)
    requires NoOption(args)
    ensures ReadSend(CastArgv(args, rpcUrl, key, gas))
         == Some(Call(args, Some(rpcUrl), Some(key), Some(gas), true))
  {
    hide ReadWords;
    var options := ["--rpc-url", rpcUrl, "--private-key", key, "--gas-limit", gas, "--json"];
    var argv := CastArgv(args, rpcUrl, key, gas);
    var none := Call([], None, None, None, false);
    assert argv[2..] == args + options;
    ReadPlainWords(args, options, none);
    assert [] + args == args;
    ReadOptions(rpcUrl, key, gas, none.(words := args));
  }

  // ----- the allowance -----

  function HexDigitValue(c: char): nat
    requires IsHexDigit(c)
  {
    if '0' <= c <= '9' then c as int - '0' as int
    else if 'a' <= c <= 'f' then c as int - 'a' as int + 10
    else c as int - 'A' as int + 10
  }

  /** The number a hexadecimal text denotes. */
  function HexValue(s: string): nat
    requires AllHex(s)
  {
    if s == "" then 0 else 16 * HexValue(s[..|s| - 1]) + HexDigitValue(s[|s| - 1])
  }

  function Pow16(n: nat): nat { if n == 0 then 1 else 16 * Pow16(n - 1) }

  lemma {:induction false} OnesValue(s: string)
    requires forall k :: 0 <= k < |s| ==> s[k] == 'f'
    ensures AllHex(s) && HexValue(s) + 1 == Pow16(|s|)
  {
    if s != "" { OnesValue(s[..|s| - 1]); }
  }

  lemma {:induction false} Pow16Add(a: nat, b: nat)
    ensures Pow16(a + b) == Pow16(a) * Pow16(b)
  {
    if b > 0 {
      Pow16Add(a, b - 1);
      Regroup(Pow16(a), Pow16(b - 1));
    }
  }

  lemma Regroup(x: nat, y: nat)
    ensures 16 * (x * y) == x * (16 * y)
  {}

  /** The approved allowance is 2^256 - 1. */
  lemma AllowanceValue()
    ensures "0x" <= MAX_ALLOWANCE && AllHex(MAX_ALLOWANCE[2..]) && HexValue(MAX_ALLOWANCE[2..]) == MAX_UINT256
  {
    hide HexValue, Pow16;
    RepeatAt('f', 64);
    var ones := Repeat('f', 64);
    assert MAX_ALLOWANCE[2..] == ones;
    OnesValue(ones);
    Pow16Of64();
  }

  lemma Pow16Of64()
    ensures Pow16(64) == MAX_UINT256 + 1
  {
    hide Pow16;
    Pow16Of8();
    Pow16Add(8, 8);
    Pow16Add(16, 16);
    Pow16Add(32, 32);
  }

  lemma Pow16Of8()
    ensures Pow16(8) == 0x1_0000_0000
  {}

  // ----- both calls, as received -----

  lemma ApproveIsWord()
    ensures !IsOption(APPROVE) && APPROVE == "approve" + "(address,uint256)"
  {
    assert APPROVE[0] == 'a';
  }

  lemma PayForQuotesIsWord()
    ensures !IsOption(PAY_FOR_QUOTES)
    ensures PAY_FOR_QUOTES == "payForQuotes" + "((address,uint256," + "bytes32)[])"
  {
    assert PAY_FOR_QUOTES[0] == 'p';
  }

  lemma AllowanceIsWord()
    ensures !IsOption(MAX_ALLOWANCE)
  {
    assert MAX_ALLOWANCE[0] == '0';
  }

  /** As parsed from either command line of a valid request: the first call
      approves, on the token, the contract that the second call is sent to, and
      for the largest amount; the second pays the listed quotes; and both carry
      the request's RPC URL, the signer's key and their own gas limit. */
  lemma CallsFitTogether(r: Request, key: string, rules: Argv.Rules)
    requires ValidRequest(r) && Argv.NUL !in key
    ensures ReadSend(Argv.ParseCommandLine(Argv.Line(ApproveArgv(r, key)), rules))
         == Some(Call([r.token, "approve" + "(address,uint256)", r.vault, MAX_ALLOWANCE],
                      Some(r.rpcUrl), Some(key), Some("500000"), true))
    ensures ReadSend(Argv.ParseCommandLine(Argv.Line(PayArgv(r, key)), rules))
         == Some(Call([r.vault, "payForQuotes" + "((address,uint256," + "bytes32)[])", TuplesText(r.payments)],
                      Some(r.rpcUrl), Some(key), Some("1000000"), true))
    ensures ParseTuples(TuplesText(r.payments)) == Some(NormalisedPayments(r.payments))
  {
    hide Argv.ParseCommandLine, Argv.Line, ValidRequest, TuplesText, ReadSend, MAX_ALLOWANCE, CastArgv;
    hide ParseTuples, NormalisedPayments, APPROVE, PAY_FOR_QUOTES;
    ValidRequestSurvives(r, key, rules);
    NothingReadsAsOption(r);
    ApproveIsWord();
    PayForQuotesIsWord();
    AllowanceIsWord();
    ReadableTuples(r);
    CastArgvReads([r.token, APPROVE, r.vault, MAX_ALLOWANCE], r.rpcUrl, key, "500000");
    CastArgvReads([r.vault, PAY_FOR_QUOTES, TuplesText(r.payments)], r.rpcUrl, key, "1000000");
  }

  lemma ReadableTuples(r: Request)
    requires ValidRequest(r)
    ensures ParseTuples(TuplesText(r.payments)) == Some(NormalisedPayments(r.payments))
  {
    hide ParseTuples, TuplesText, NormalisedPayments;
    RequestPaymentsArePlain(r);
    TuplesRoundTrip(r.payments);
  }
}
