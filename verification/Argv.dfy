/** Shell-free argument passing: the Windows command-line printer of
    antd-cpp/examples/external_signer_util.hpp and the argument parsers it is
    written for (the MSVC runtime and CommandLineToArgvW). */
module Argv {
  import opened Text

  const NUL: char := 0 as char

  datatype ArgvError = NoProgram | EmbeddedNul | QuoteInProgram

  // ----- the printer -----

  function Backslashes(n: nat): (s: string)
    ensures |s| == n
  {
    if n == 0 then "" else ['\\'] + Backslashes(n - 1)
  }

  predicate IsSeparator(c: char) { c == ' ' || c == '\t' }

  /** find_first_of(" \t\n\v\""): what makes an argument need quotes. */
  predicate IsSpecial(c: char) { IsSeparator(c) || c == '\n' || c as int == 11 || c == '"' }

  predicate NeedsQuotes(arg: string) { arg == "" || exists c :: c in arg && IsSpecial(c) }

  /** The text between the quotes, given `pending` backslashes just before `arg`. */
  function Escaped(arg: string, pending: nat): string
    decreases |arg|
  {
    if arg == "" then Backslashes(pending * 2)
    else if arg[0] == '\\' then Escaped(arg[1..], pending + 1)
    else if arg[0] == '"' then Backslashes(pending * 2 + 1) + ("\"" + Escaped(arg[1..], 0))
    else Backslashes(pending) + ([arg[0]] + Escaped(arg[1..], 0))
  }

  function Quoted(arg: string): string {
    if NeedsQuotes(arg) then "\"" + (Escaped(arg, 0) + "\"") else arg
  }

  /** Each argument after the program, preceded by one space. */
  function Arguments(args: seq<string>): string {
    if args == [] then "" else " " + (Quoted(args[0]) + Arguments(args[1..]))
  }

  function Line(argv: seq<string>): string
    requires argv != []
  {
    "\"" + (argv[0] + ("\"" + Arguments(argv[1..])))
  }

  lemma {:induction false} BackslashesAppend(m: nat, n: nat)
    ensures Backslashes(m) + Backslashes(n) == Backslashes(m + n)
  {
    if m > 0 {
      BackslashesAppend(m - 1, n);
      assert Backslashes(m) + Backslashes(n) == ['\\'] + (Backslashes(m - 1) + Backslashes(n));
    }
  }

  /** quote_windows_arg. */
  method QuoteWindowsArg(arg: string) returns (out: string)
    ensures out == Quoted(arg)
  {
    if !NeedsQuotes(arg) {
      return arg;
    }
    out := "\"";
    var i := 0;
    while true
      invariant 0 <= i <= |arg|
      invariant "\"" + Escaped(arg, 0) == out + Escaped(arg[i..], 0)
      decreases |arg| - i
    {
      var backslashes := 0;
      while i < |arg| && arg[i] == '\\'
        invariant 0 <= i <= |arg|
        invariant "\"" + Escaped(arg, 0) == out + Escaped(arg[i..], backslashes)
      {
        assert arg[i..][1..] == arg[i + 1..];
        backslashes := backslashes + 1;
        i := i + 1;
      }
      if i == |arg| {
        out := out + Backslashes(backslashes * 2);
        break;
      }
      EscapedStep(out, arg, i, backslashes);
      if arg[i] == '"' {
        out := out + Backslashes(backslashes * 2 + 1);
      } else {
        out := out + Backslashes(backslashes);
      }
      out := out + [arg[i]];
      i := i + 1;
    }
    assert out + "\"" == "\"" + (Escaped(arg, 0) + "\"");
    out := out + "\"";
  }

  lemma EscapedStep(out: string, arg: string, i: nat, k: nat)
    requires i < |arg| && arg[i] != '\\'
    ensures out + Escaped(arg[i..], k)
         == out + Backslashes(if arg[i] == '"' then k * 2 + 1 else k) + [arg[i]] + Escaped(arg[i + 1..], 0)
  {
    assert arg[i..][1..] == arg[i + 1..];
  }

  /** check_argv. */
  method CheckArgv(argv: seq<string>) returns (e: Option<ArgvError>)
    ensures e == if argv == [] || argv[0] == "" then Some(NoProgram)
                 else if exists k :: 0 <= k < |argv| && NUL in argv[k] then Some(EmbeddedNul)
                 else None
  {
    if argv == [] || argv[0] == "" {
      return Some(NoProgram);
    }
    for i := 0 to |argv|
      invariant forall k :: 0 <= k < i ==> NUL !in argv[k]
    {
      if NUL in argv[i] { return Some(EmbeddedNul); }
    }
    return None;
  }

  predicate Printable(argv: seq<string>) {
    argv != [] && argv[0] != "" && '"' !in argv[0] && NulFree(argv)
  }

  predicate NulFree(argv: seq<string>) { forall k :: 0 <= k < |argv| ==> NUL !in argv[k] }

  /** windows_command_line: a line exactly for the printable vectors. */
  method WindowsCommandLine(argv: seq<string>) returns (r: Result<string, ArgvError>)
    ensures r.Ok? <==> Printable(argv)
    ensures r.Ok? ==> r.value == Line(argv)
    ensures r.Err? ==> r.error == if argv == [] || argv[0] == "" then NoProgram
                                  else if !NulFree(argv) then EmbeddedNul else QuoteInProgram
  {
    var e := CheckArgv(argv);
    if e.Some? { return Err(e.value); }
    if '"' in argv[0] { return Err(QuoteInProgram); }
    hide Quoted, Arguments, Line, NeedsQuotes;
    var line := "\"" + argv[0] + "\"";
    LineStarts(argv);
    var i := 1;
    while i < |argv|
      invariant 1 <= i <= |argv|
      invariant Line(argv) == line + Arguments(argv[i..])
    {
      NextArgument(line, argv, i);
      line := line + " ";
      var quoted := QuoteWindowsArg(argv[i]);
      line := line + quoted;
      i := i + 1;
    }
    NoMoreArguments(line, argv);
    return Ok(line);
  }

  lemma LineStarts(argv: seq<string>)
    requires argv != []
    ensures Line(argv) == "\"" + argv[0] + "\"" + Arguments(argv[1..])
  {
    hide Arguments;
  }

  lemma NextArgument(line: string, argv: seq<string>, i: nat)
    requires i < |argv|
    ensures line + Arguments(argv[i..]) == line + " " + Quoted(argv[i]) + Arguments(argv[i + 1..])
  {
    hide Quoted;
    assert argv[i..][1..] == argv[i + 1..];
  }

  lemma NoMoreArguments(line: string, argv: seq<string>)
    ensures line + Arguments(argv[|argv|..]) == line
  {}

  // ----- the parsers -----

  /** How the parsers differ: what `""` means inside quotes, and whether the
      program name ends at its closing quote or at the next separator. */
  datatype Doubled = Toggles | Literal(staysQuoted: bool)

  datatype Rules = Rules(doubled: Doubled, programEndsAtQuote: bool)

  datatype Parsed = Parsed(arg: string, rest: string)

  /** One argument. `slashes` backslashes have been read but not yet emitted. */
  function ParseArg(s: string, quoted: bool, slashes: nat, d: Doubled): (p: Parsed)
    ensures |p.rest| <= |s|
    decreases |s|
  {
    if s == "" then Parsed(Backslashes(slashes), "")
    else if s[0] == '\\' then ParseArg(s[1..], quoted, slashes + 1, d)
    else if s[0] == '"' then
      if slashes % 2 == 1 then
        Emit(Backslashes(slashes / 2) + "\"", ParseArg(s[1..], quoted, 0, d))
      else if quoted && d.Literal? && |s| > 1 && s[1] == '"' then
        Emit(Backslashes(slashes / 2) + "\"", ParseArg(s[2..], d.staysQuoted, 0, d))
      else
        Emit(Backslashes(slashes / 2), ParseArg(s[1..], !quoted, 0, d))
    else if !quoted && IsSeparator(s[0]) then Parsed(Backslashes(slashes), s)
    else Emit(Backslashes(slashes) + [s[0]], ParseArg(s[1..], quoted, 0, d))
  }

  function Emit(text: string, p: Parsed): Parsed { p.(arg := text + p.arg) }

  function SkipSeparators(s: string): (r: string)
    ensures |r| <= |s| && (r != "" ==> !IsSeparator(r[0]))
  {
    if s != "" && IsSeparator(s[0]) then SkipSeparators(s[1..]) else s
  }

  function ParseArgs(s: string, d: Doubled): seq<string>
    decreases |s|
  {
    var t := SkipSeparators(s);
    if t == "" then []
    else
      ArgConsumes(t, d);
      var p := ParseArg(t, false, 0, d);
      [p.arg] + ParseArgs(p.rest, d)
  }

  lemma ArgConsumes(s: string, d: Doubled)
    requires s != "" && !IsSeparator(s[0])
    ensures |ParseArg(s, false, 0, d).rest| < |s|
  {}

  /** The program name: quotes delimit it, backslashes are literal. */
  function ParseProgram(s: string, quoted: bool, endsAtQuote: bool): Parsed {
    if s == "" then Parsed("", "")
    else if s[0] == '"' then
      if quoted && endsAtQuote then Parsed("", s[1..]) else ParseProgram(s[1..], !quoted, endsAtQuote)
    else if !quoted && IsSeparator(s[0]) then Parsed("", s)
    else Emit([s[0]], ParseProgram(s[1..], quoted, endsAtQuote))
  }

  /** A command line is a NUL-terminated string. */
  function UpToNul(s: string): string { s[..IndexOf(s, NUL)] }

  function ParseCommandLine(line: string, rules: Rules): seq<string> {
    var p := ParseProgram(UpToNul(line), false, rules.programEndsAtQuote);
    [p.arg] + ParseArgs(p.rest, rules.doubled)
  }

  // ----- the parsing rules, as documented for the two parsers -----

  /** Before a quote, 2n + 1 backslashes give n and a literal quote; 2n give n
      and the quote toggles, unless it is doubled inside quotes and the rules
      make that a literal quote. */
  lemma BackslashesBeforeQuote(n: nat, rest: string, quoted: bool, d: Doubled)
    ensures ParseArg(Backslashes(2 * n + 1) + ("\"" + rest), quoted, 0, d)
         == Emit(Backslashes(n) + "\"", ParseArg(rest, quoted, 0, d))
    ensures !(quoted && d.Literal? && rest != "" && rest[0] == '"') ==>
              ParseArg(Backslashes(2 * n) + ("\"" + rest), quoted, 0, d)
              == Emit(Backslashes(n), ParseArg(rest, !quoted, 0, d))
    ensures quoted && d.Literal? && rest != "" && rest[0] == '"' ==>
              ParseArg(Backslashes(2 * n) + ("\"" + rest), quoted, 0, d)
              == Emit(Backslashes(n) + "\"", ParseArg(rest[1..], d.staysQuoted, 0, d))
  {
    hide ParseArg, Backslashes;
    ParseBackslashes(2 * n + 1, "\"" + rest, quoted, 0, d);
    ParseBackslashes(2 * n, "\"" + rest, quoted, 0, d);
    QuoteAfterOdd(n, rest, quoted, d);
    QuoteAfterEven(n, rest, quoted, d);
  }

  lemma QuoteAfterOdd(n: nat, rest: string, quoted: bool, d: Doubled)
    ensures ParseArg("\"" + rest, quoted, 2 * n + 1, d) == Emit(Backslashes(n) + "\"", ParseArg(rest, quoted, 0, d))
  {
    hide Backslashes;
    assert ("\"" + rest)[1..] == rest;
    assert (2 * n + 1) % 2 == 1 && (2 * n + 1) / 2 == n;
  }

  lemma QuoteAfterEven(n: nat, rest: string, quoted: bool, d: Doubled)
    ensures ParseArg("\"" + rest, quoted, 2 * n, d)
         == if quoted && d.Literal? && rest != "" && rest[0] == '"' then
              Emit(Backslashes(n) + "\"", ParseArg(rest[1..], d.staysQuoted, 0, d))
            else Emit(Backslashes(n), ParseArg(rest, !quoted, 0, d))
  {
    hide Backslashes;
    assert ("\"" + rest)[1..] == rest;
    assert 2 * n % 2 == 0 && 2 * n / 2 == n;
    if rest != "" { assert ("\"" + rest)[2..] == rest[1..]; }
  }

  /** Backslashes before anything else are literal; a space or a tab ends an
      argument outside quotes and is literal inside. */
  lemma BackslashesBeforeOther(n: nat, c: char, rest: string, quoted: bool, d: Doubled)
    requires c != '\\' && c != '"'
    ensures ParseArg(Backslashes(n) + ([c] + rest), quoted, 0, d)
         == if !quoted && c in " \t" then Parsed(Backslashes(n), [c] + rest)
            else Emit(Backslashes(n) + [c], ParseArg(rest, quoted, 0, d))
  {
    ParseBackslashes(n, [c] + rest, quoted, 0, d);
    assert ([c] + rest)[1..] == rest;
  }

  /** Which arguments the printer quotes. */
  lemma QuotedExactly(arg: string)
    ensures Quoted(arg) != arg <==> arg == "" || exists c :: c in arg && c in [' ', '\t', '\n', 11 as char, '"']
    ensures Quoted(arg) != arg ==> |Quoted(arg)| >= |arg| + 2 && Quoted(arg)[0] == '"'
  {
    EscapedIsNoShorter(arg, 0);
  }

  lemma {:induction false} EscapedIsNoShorter(arg: string, pending: nat)
    ensures |Escaped(arg, pending)| >= |arg| + pending
    decreases |arg|
  {
    if arg != "" {
      EscapedIsNoShorter(arg[1..], pending + 1);
      EscapedIsNoShorter(arg[1..], 0);
    }
  }

  // ----- the parsers read the printed line back -----

  lemma {:induction false} ParseBackslashes(n: nat, s: string, quoted: bool, m: nat, d: Doubled)
    ensures ParseArg(Backslashes(n) + s, quoted, m, d) == ParseArg(s, quoted, m + n, d)
  {
    if n == 0 {
      assert Backslashes(0) + s == s;
    } else {
      assert (Backslashes(n) + s)[1..] == Backslashes(n - 1) + s;
      ParseBackslashes(n - 1, s, quoted, m + 1, d);
    }
  }

  predicate EndsArgument(tail: string) { tail == "" || IsSeparator(tail[0]) }

  /** A closing quote after an even run ends the quoted part. */
  lemma ParseClosingQuote(slashes: nat, tail: string, d: Doubled)
    requires EndsArgument(tail)
    ensures ParseArg("\"" + tail, true, slashes * 2, d) == Parsed(Backslashes(slashes), tail)
  {
    assert ("\"" + tail)[1..] == tail;
    assert ParseArg(tail, false, 0, d) == Parsed("", tail);
    assert slashes * 2 % 2 == 0 && slashes * 2 / 2 == slashes;
    assert Backslashes(slashes) + "" == Backslashes(slashes);
  }

  /** The escaped text and its closing quote read back as the argument. */
  lemma {:induction false} ParseEscaped(arg: string, pending: nat, tail: string, d: Doubled)
    requires EndsArgument(tail)
    ensures ParseArg(Escaped(arg, pending) + ("\"" + tail), true, 0, d)
         == Parsed(Backslashes(pending) + arg, tail)
    decreases |arg|
  {
    if arg == "" {
      ParseBackslashes(pending * 2, "\"" + tail, true, 0, d);
      ParseClosingQuote(pending, tail, d);
      assert Backslashes(pending) + "" == Backslashes(pending);
    } else if arg[0] == '\\' {
      ParseEscaped(arg[1..], pending + 1, tail, d);
      JoinBackslash(pending, arg);
    } else {
      ParseEscaped(arg[1..], 0, tail, d);
      ParseOneEscaped(arg[0], pending, Escaped(arg[1..], 0) + ("\"" + tail), d);
      var k := if arg[0] == '"' then pending * 2 + 1 else pending;
      assert Backslashes(k) + ([arg[0]] + Escaped(arg[1..], 0)) + ("\"" + tail)
          == Backslashes(k) + ([arg[0]] + (Escaped(arg[1..], 0) + ("\"" + tail)));
      JoinChar(pending, arg);
    }
  }

  lemma JoinBackslash(pending: nat, arg: string)
    requires arg != "" && arg[0] == '\\'
    ensures Backslashes(pending + 1) + arg[1..] == Backslashes(pending) + arg
  {
    BackslashesAppend(pending, 1);
    assert Backslashes(1) == "\\";
    assert Backslashes(pending) + arg == Backslashes(pending) + "\\" + arg[1..];
  }

  lemma JoinChar(pending: nat, arg: string)
    requires arg != ""
    ensures Backslashes(0) + arg[1..] == arg[1..]
    ensures Backslashes(pending) + [arg[0]] + arg[1..] == Backslashes(pending) + arg
  {}

  lemma ParseOneEscaped(c: char, pending: nat, rest: string, d: Doubled)
    requires c != '\\'
    ensures ParseArg(Backslashes(if c == '"' then pending * 2 + 1 else pending) + ([c] + rest), true, 0, d)
         == Emit(Backslashes(pending) + [c], ParseArg(rest, true, 0, d))
  {
    var k := if c == '"' then pending * 2 + 1 else pending;
    ParseBackslashes(k, [c] + rest, true, 0, d);
    assert ([c] + rest)[1..] == rest;
  }

  /** An argument without special characters is read as it stands. */
  lemma {:induction false} ParsePlain(arg: string, pending: nat, tail: string, d: Doubled)
    requires forall c :: c in arg ==> !IsSpecial(c)
    requires EndsArgument(tail)
    ensures ParseArg(arg + tail, false, pending, d) == Parsed(Backslashes(pending) + arg, tail)
    decreases |arg|
  {
    if arg == "" {
      assert arg + tail == tail;
      assert Backslashes(pending) + "" == Backslashes(pending);
    } else {
      hide Backslashes;
      assert (arg + tail)[1..] == arg[1..] + tail;
      assert arg[0] in arg;
      if arg[0] == '\\' {
        ParsePlain(arg[1..], pending + 1, tail, d);
        JoinBackslash(pending, arg);
      } else {
        ParsePlain(arg[1..], 0, tail, d);
        JoinChar(pending, arg);
        ParseOnePlain(arg, pending, tail, d);
      }
    }
  }

  lemma ParseOnePlain(arg: string, pending: nat, tail: string, d: Doubled)
    requires arg != "" && arg[0] != '\\' && !IsSpecial(arg[0])
    ensures ParseArg(arg + tail, false, pending, d)
         == Emit(Backslashes(pending) + [arg[0]], ParseArg(arg[1..] + tail, false, 0, d))
  {
    assert (arg + tail)[1..] == arg[1..] + tail;
  }

  lemma ParseQuoted(arg: string, tail: string, d: Doubled)
    requires EndsArgument(tail)
    ensures var s := Quoted(arg) + tail;
            s != "" && !IsSeparator(s[0]) && ParseArg(s, false, 0, d) == Parsed(arg, tail)
  {
    hide ParseArg, Escaped, Backslashes;
    var s := Quoted(arg) + tail;
    NoBackslashes(arg);
    if NeedsQuotes(arg) {
      ParseEscaped(arg, 0, tail, d);
      assert s == "\"" + (Escaped(arg, 0) + ("\"" + tail));
      ParseOpeningQuote(Escaped(arg, 0) + ("\"" + tail), d);
    } else {
      ParsePlain(arg, 0, tail, d);
      assert s[0] == arg[0] && arg[0] in arg;
    }
  }

  lemma NoBackslashes(arg: string)
    ensures Backslashes(0) == "" && Backslashes(0) + arg == arg
  {}

  lemma ParseOpeningQuote(rest: string, d: Doubled)
    ensures ParseArg("\"" + rest, false, 0, d) == ParseArg(rest, true, 0, d)
  {
    assert ("\"" + rest)[1..] == rest;
    EmitNothing(ParseArg(rest, true, 0, d));
  }

  lemma EmitNothing(p: Parsed)
    ensures Emit("", p) == p
  {
    assert "" + p.arg == p.arg;
  }

  lemma {:induction false} ParseArguments(args: seq<string>, d: Doubled)
    ensures ParseArgs(Arguments(args), d) == args
    ensures EndsArgument(Arguments(args))
  {
    if args != [] {
      var rest := Arguments(args[1..]);
      ParseArguments(args[1..], d);
      ParseQuoted(args[0], rest, d);
      var s := Arguments(args);
      assert s[1..] == Quoted(args[0]) + rest;
      assert SkipSeparators(s) == Quoted(args[0]) + rest;
      assert args == [args[0]] + args[1..];
    }
  }

  lemma {:induction false} ParsePrintedProgram(name: string, tail: string, endsAtQuote: bool)
    requires '"' !in name && EndsArgument(tail)
    ensures ParseProgram(name + ("\"" + tail), true, endsAtQuote) == Parsed(name, tail)
  {
    var s := name + ("\"" + tail);
    if name == "" {
      assert s == "\"" + tail && s[1..] == tail;
    } else {
      assert s[1..] == name[1..] + ("\"" + tail);
      assert s[0] in name;
      ParsePrintedProgram(name[1..], tail, endsAtQuote);
    }
  }

  // ----- NULs and quotes are what cannot be passed -----

  lemma {:induction false} EscapedKeepsNul(arg: string, pending: nat)
    ensures NUL in Escaped(arg, pending) <==> NUL in arg
    decreases |arg|
  {
    if arg == "" {
      BackslashesOnly(pending * 2);
    } else {
      assert arg == [arg[0]] + arg[1..];
      if arg[0] == '\\' {
        EscapedKeepsNul(arg[1..], pending + 1);
      } else {
        EscapedKeepsNul(arg[1..], 0);
        BackslashesOnly(if arg[0] == '"' then pending * 2 + 1 else pending);
      }
    }
  }

  lemma {:induction false} BackslashesOnly(n: nat)
    ensures forall c :: c in Backslashes(n) ==> c == '\\'
  {
    if n > 0 { BackslashesOnly(n - 1); }
  }

  lemma {:induction false} ArgumentsKeepNul(args: seq<string>)
    ensures NUL in Arguments(args) <==> !NulFree(args)
  {
    if args != [] {
      ArgumentsKeepNul(args[1..]);
      EscapedKeepsNul(args[0], 0);
      assert NUL in Quoted(args[0]) <==> NUL in args[0];
      NulFreeCons(args);
    }
  }

  lemma NulFreeCons(args: seq<string>)
    requires args != []
    ensures NulFree(args) <==> NUL !in args[0] && NulFree(args[1..])
  {
    if NUL !in args[0] && NulFree(args[1..]) {
      forall k | 0 <= k < |args| ensures NUL !in args[k] {
        if k > 0 { assert args[k] == args[1..][k - 1]; }
      }
    }
  }

  lemma {:induction false} ProgramOf(s: string, quoted: bool, endsAtQuote: bool)
    requires NUL !in s
    ensures var p := ParseProgram(s, quoted, endsAtQuote);
            '"' !in p.arg && NUL !in p.arg && NUL !in p.rest
  {
    if s != "" { ProgramOf(s[1..], quoted, endsAtQuote); ProgramOf(s[1..], !quoted, endsAtQuote); }
  }

  lemma {:induction false} ArgHasNoNul(s: string, quoted: bool, slashes: nat, d: Doubled)
    requires NUL !in s
    ensures var p := ParseArg(s, quoted, slashes, d); NUL !in p.arg && NUL !in p.rest
    decreases |s|
  {
    BackslashesOnly(slashes);
    BackslashesOnly(slashes / 2);
    if s != "" {
      if s[0] == '\\' {
        ArgHasNoNul(s[1..], quoted, slashes + 1, d);
      } else {
        ArgHasNoNul(s[1..], quoted, 0, d);
        ArgHasNoNul(s[1..], !quoted, 0, d);
        if d.Literal? && |s| > 1 { ArgHasNoNul(s[2..], d.staysQuoted, 0, d); }
      }
    }
  }

  lemma {:induction false} ArgsHaveNoNul(s: string, d: Doubled)
    requires NUL !in s
    ensures NulFree(ParseArgs(s, d))
    decreases |s|
  {
    var t := SkipSeparators(s);
    SkipKeeps(s);
    if t != "" {
      ArgConsumes(t, d);
      ArgHasNoNul(t, false, 0, d);
      ArgsHaveNoNul(ParseArg(t, false, 0, d).rest, d);
      NulFreeCons(ParseArgs(s, d));
    }
  }

  lemma {:induction false} SkipKeeps(s: string)
    ensures forall c :: c in SkipSeparators(s) ==> c in s
  {
    if s != "" && IsSeparator(s[0]) { SkipKeeps(s[1..]); }
  }

  /** Whatever the rules variant, the parsed program name holds no quote and
      no parsed argument holds a NUL. */
  lemma ParsedIsPassable(line: string, rules: Rules)
    ensures var argv := ParseCommandLine(line, rules); '"' !in argv[0] && NulFree(argv)
  {
    var s := UpToNul(line);
    var p := ParseProgram(s, false, rules.programEndsAtQuote);
    ProgramOf(s, false, rules.programEndsAtQuote);
    ArgsHaveNoNul(p.rest, rules.doubled);
    NulFreeCons(ParseCommandLine(line, rules));
  }

  /** The exact vectors that survive: the printed line reads back as `argv`,
      under every rules variant, just when nothing holds a NUL and the program
      name holds no quote. */
  lemma CommandLineRoundTrip(argv: seq<string>, rules: Rules)
    requires argv != []
    ensures ParseCommandLine(Line(argv), rules) == argv <==> '"' !in argv[0] && NulFree(argv)
  {
    ParsedIsPassable(Line(argv), rules);
    if '"' !in argv[0] && NulFree(argv) {
      var tail := Arguments(argv[1..]);
      var line := Line(argv);
      NulFreeCons(argv);
      ArgumentsKeepNul(argv[1..]);
      assert NUL !in line;
      assert UpToNul(line) == line;
      ParseArguments(argv[1..], rules.doubled);
      ParsePrintedProgram(argv[0], tail, rules.programEndsAtQuote);
      assert line[1..] == argv[0] + ("\"" + tail);
    }
  }
}
