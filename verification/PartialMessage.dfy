/** The partial-upload message: the daemon's printer (antd/src/error.rs) and the
    Go client's reader, two regular expressions and three conversions
    (antd-go/errors.go). */
module PartialMessage {
  import opened Text
  import opened Decimal

  const PREFIX := "Partial upload:"
  const RETAINED := "paid attempt retained"
  const NOT_RETAINED := "stored chunks persist; " + "re-prepare the same " + "content"

  // ----- the counts pattern -----

  /** What the counts pattern matches: the fixed start of the message. */
  function Head(stored: string, total: string, failed: string): string {
    PREFIX + " " + stored + "/" + total + " chunks stored, " + failed + " failed"
  }

  predicate Numeral(s: string) { s != "" && AllDigits(s) }

  /** The pattern as its regular expression reads: some start of the message
      is Head of three digit runs. */
  ghost predicate CountsMatch(msg: string, stored: string, total: string, failed: string) {
    Numeral(stored) && Numeral(total) && Numeral(failed) && Head(stored, total, failed) <= msg
  }

  /** The longest run of digits at the start, and what follows it. */
  function SpanDigits(s: string): (r: (string, string))
    ensures s == r.0 + r.1 && AllDigits(r.0)
    ensures r.1 != "" ==> !IsDigit(r.1[0])
  {
    if s == "" || !IsDigit(s[0]) then ("", s)
    else
      var r := SpanDigits(s[1..]);
      ([s[0]] + r.0, r.1)
  }

  lemma {:induction false} SpanOf(digits: string, rest: string)
    requires AllDigits(digits) && (rest != "" ==> !IsDigit(rest[0]))
    ensures SpanDigits(digits + rest) == (digits, rest)
  {
    if digits == "" {
      assert digits + rest == rest;
    } else {
      assert digits[0] in digits;
      assert (digits + rest)[1..] == digits[1..] + rest;
      assert forall c :: c in digits[1..] ==> c in digits;
      SpanOf(digits[1..], rest);
      assert [digits[0]] + digits[1..] == digits;
    }
  }

  /** Matching the pattern left to right. A digit run is always followed by a
      byte that is no digit, so the longest run is the only one that matches. */
  function MatchCounts(msg: string): Option<(string, string, string)> {
    var r0 := CutPrefix(msg, PREFIX + " ");
    if r0.None? then None else
    var stored := SpanDigits(r0.value);
    var r1 := CutPrefix(stored.1, "/");
    if stored.0 == "" || r1.None? then None else
    var total := SpanDigits(r1.value);
    var r2 := CutPrefix(total.1, " chunks stored, ");
    if total.0 == "" || r2.None? then None else
    var failed := SpanDigits(r2.value);
    if failed.0 == "" || !HasPrefix(failed.1, " failed") then None
    else Some((stored.0, total.0, failed.0))
  }

  lemma MatchCountsSound(msg: string)
    ensures var m := MatchCounts(msg); m.Some? ==> CountsMatch(msg, m.value.0, m.value.1, m.value.2)
  {
    hide SpanDigits, Head, CutPrefix;
    var m := MatchCounts(msg);
    if m.Some? {
      var r0 := CutPrefix(msg, PREFIX + " ").value;
      var stored := SpanDigits(r0);
      var r1 := CutPrefix(stored.1, "/").value;
      var total := SpanDigits(r1);
      var r2 := CutPrefix(total.1, " chunks stored, ").value;
      var failed := SpanDigits(r2);
      HeadThenRest(stored.0, total.0, failed.0, failed.1);
    }
  }

  lemma HeadThenRest(stored: string, total: string, failed: string, rest: string)
    requires " failed" <= rest
    ensures Head(stored, total, failed)
         <= PREFIX + " " + (stored + ("/" + (total + (" chunks stored, " + (failed + rest)))))
  {
    var tail := rest[7..];
    assert rest == " failed" + tail;
    assert PREFIX + " " + (stored + ("/" + (total + (" chunks stored, " + (failed + rest)))))
        == Head(stored, total, failed) + tail;
  }

  lemma MatchCountsComplete(msg: string, stored: string, total: string, failed: string)
    requires CountsMatch(msg, stored, total, failed)
    ensures MatchCounts(msg) == Some((stored, total, failed))
  {
    var rest := msg[|Head(stored, total, failed)|..];
    var t2 := failed + (" failed" + rest);
    var t1 := total + (" chunks stored, " + t2);
    var t0 := stored + ("/" + t1);
    assert msg == Head(stored, total, failed) + rest == PREFIX + " " + t0;
    CutPrefixOf(PREFIX + " ", t0);
    SpanOf(stored, "/" + t1);
    CutPrefixOf("/", t1);
    SpanOf(total, " chunks stored, " + t2);
    CutPrefixOf(" chunks stored, ", t2);
    SpanOf(failed, " failed" + rest);
  }

  // ----- the retention pattern -----

  predicate IsParen(c: char) { c == '(' || c == ')' }

  predicate NoParens(s: string) { forall c :: c in s ==> !IsParen(c) }

  function Hint(retained: bool): string { if retained then RETAINED else NOT_RETAINED }

  function HintGroup(retained: bool, mid: string): string { "(" + Hint(retained) + mid + ")" }

  /** The pattern as its regular expression reads: the message ends in a
      parenthesised group that opens with the hint and holds no parenthesis. */
  ghost predicate TailMatch(msg: string, retained: bool) {
    exists pre, mid :: NoParens(mid) && msg == pre + HintGroup(retained, mid)
  }

  /** Where the last parenthesis is, if there is one. */
  function LastParen(s: string): (r: Option<nat>)
    ensures r.None? ==> NoParens(s)
    ensures r.Some? ==> r.value < |s| && IsParen(s[r.value]) && NoParens(s[r.value + 1..])
  {
    if s == "" then None
    else if IsParen(s[|s| - 1]) then Some(|s| - 1)
    else
      var r := LastParen(s[..|s| - 1]);
      assert s == s[..|s| - 1] + [s[|s| - 1]];
      if r.None? then None
      else
        assert s[r.value + 1..] == s[..|s| - 1][r.value + 1..] + [s[|s| - 1]];
        r
  }

  /** The search the pattern amounts to: the closing parenthesis ends the
      message, and the last parenthesis before it opens the group. */
  function MatchTail(msg: string): Option<bool> {
    if msg == "" || msg[|msg| - 1] != ')' then None
    else
      var body := msg[..|msg| - 1];
      var open := LastParen(body);
      if open.None? || body[open.value] != '(' then None
      else
        var group := body[open.value + 1..];
        if RETAINED <= group then Some(true)
        else if NOT_RETAINED <= group then Some(false)
        else None
  }

  lemma HintsHaveNoParens(retained: bool)
    ensures NoParens(Hint(retained))
  {
    if !retained {
      assert NoParens("stored chunks persist; ") && NoParens("re-prepare the same ") && NoParens("content");
    }
  }

  lemma HintsDiffer()
    ensures RETAINED != "" && NOT_RETAINED != "" && RETAINED[0] != NOT_RETAINED[0]
  {}

  lemma GroupText(pre: string, retained: bool, mid: string)
    ensures pre + HintGroup(retained, mid) == pre + "(" + (Hint(retained) + mid) + ")"
  {
    hide Hint;
    assert pre + HintGroup(retained, mid) == pre + "(" + (Hint(retained) + mid) + ")";
  }

  lemma MatchTailSound(msg: string)
    ensures MatchTail(msg).Some? ==> TailMatch(msg, MatchTail(msg).value)
  {
    hide RETAINED, NOT_RETAINED, LastParen, TailMatch;
    if MatchTail(msg).Some? {
      var body := msg[..|msg| - 1];
      assert msg == body + ")";
      TailFrom(body, LastParen(body).value, MatchTail(msg).value);
    }
  }

  lemma TailFrom(body: string, open: nat, retained: bool)
    requires open < |body| && body[open] == '(' && NoParens(body[open + 1..])
    requires Hint(retained) <= body[open + 1..]
    ensures TailMatch(body + ")", retained)
  {
    hide Hint, HintGroup;
    var pre, group := body[..open], body[open + 1..];
    SplitAt(body, open);
    var mid := group[|Hint(retained)|..];
    assert group == Hint(retained) + mid;
    assert forall c :: c in mid ==> c in group;
    GroupText(pre, retained, mid);
  }

  lemma SplitAt(s: string, i: nat)
    requires i < |s|
    ensures s == s[..i] + [s[i]] + s[i + 1..]
  {}

  lemma ParenAfter(s: string, at: nat, k: nat)
    requires at < |s| && k < |s| && IsParen(s[k]) && NoParens(s[at + 1..])
    ensures k <= at
  {}

  lemma LastParenAt(pre: string, inner: string)
    requires NoParens(inner)
    ensures LastParen(pre + "(" + inner) == Some(|pre|)
  {
    var s := pre + "(" + inner;
    assert s[|pre|] == '(' && '(' in s;
    var at := LastParen(s).value;
    assert s[|pre| + 1..] == inner;
    assert at <= |pre|;
    ParenAfter(s, at, |pre|);
  }

  lemma MatchTailComplete(msg: string, retained: bool)
    requires TailMatch(msg, retained)
    ensures MatchTail(msg) == Some(retained)
  {
    hide HintGroup, RETAINED, NOT_RETAINED;
    var pre, mid :| NoParens(mid) && msg == pre + HintGroup(retained, mid);
    GroupText(pre, retained, mid);
    HintsHaveNoParens(retained);
    MatchGroup(pre, retained, mid);
  }

  lemma MatchGroup(pre: string, retained: bool, mid: string)
    requires NoParens(mid) && NoParens(Hint(retained))
    ensures MatchTail(pre + "(" + (Hint(retained) + mid) + ")") == Some(retained)
  {
    hide HintGroup, RETAINED, NOT_RETAINED, LastParen;
    var inner := Hint(retained) + mid;
    var body := pre + "(" + inner;
    var msg := body + ")";
    assert msg[..|msg| - 1] == body;
    LastParenAt(pre, inner);
    assert body[|pre| + 1..] == inner;
    HintsDiffer();
    assert Hint(retained) <= inner;
    assert inner[0] == Hint(retained)[0];
  }

  /** std::string_view::rfind on one byte. */
  function LastIndexOf(s: string, c: char): (r: Option<nat>)
    ensures r.None? <==> c !in s
    ensures r.Some? ==> r.value < |s| && s[r.value] == c && c !in s[r.value + 1..]
  {
    if s == "" then None
    else if s[|s| - 1] == c then Some(|s| - 1)
    else
      var r := LastIndexOf(s[..|s| - 1], c);
      assert s == s[..|s| - 1] + [s[|s| - 1]];
      if r.None? then None
      else
        assert s[r.value + 1..] == s[..|s| - 1][r.value + 1..] + [s[|s| - 1]];
        r
  }

  /** read_partial_upload_retention, the C++ client's hand-written scan
      (antd-cpp/include/antd/errors.hpp). None is `unreadable`. */
  function CppRetention(msg: string): Option<bool> {
    if msg == "" || msg[|msg| - 1] != ')' then None
    else
      var open := LastIndexOf(msg, '(');
      if open.None? then None
      else
        var inner := msg[open.value + 1..|msg| - 1];
        if !NoParens(inner) then None
        else if RETAINED <= inner then Some(true)
        else if NOT_RETAINED <= inner then Some(false)
        else None
  }

  /** On every message the C++ scan and the Go pattern give the same answer. */
  lemma ScanIsPattern(msg: string)
    ensures CppRetention(msg) == MatchTail(msg)
  {
    if msg != "" && msg[|msg| - 1] == ')' {
      var body := msg[..|msg| - 1];
      assert msg == body + ")";
      ScanBody(body);
    }
  }

  lemma ScanBody(body: string)
    ensures CppRetention(body + ")") == MatchTail(body + ")")
  {
    hide LastParen, LastIndexOf, RETAINED, NOT_RETAINED;
    var msg := body + ")";
    assert msg[..|msg| - 1] == body;
    var open, last := LastIndexOf(msg, '('), LastParen(body);
    if open.Some? {
      assert body[open.value] == '(' && msg[open.value + 1..|msg| - 1] == body[open.value + 1..];
      ParenIn(body, open.value);
      LastParenFollows(body, open.value, last.value);
    } else if last.Some? {
      assert body[last.value] in msg;
    }
  }

  lemma ParenIn(body: string, at: nat)
    requires at < |body| && body[at] == '('
    ensures LastParen(body).Some?
  {
    assert body[at] in body;
  }

  /** The last parenthesis is the last `(` just when nothing follows it. */
  lemma LastParenFollows(body: string, open: nat, last: nat)
    requires open < |body| && body[open] == '(' && '(' !in (body + ")")[open + 1..]
    requires LastParen(body) == Some(last)
    ensures open <= last && (body[last] == '(' <==> open == last)
    ensures NoParens(body[open + 1..]) <==> open == last
  {
    hide LastParen;
    ParenAfter(body, last, open);
    if open < last {
      assert body[last] == (body + ")")[open + 1..][last - open - 1];
      assert body[last] == body[open + 1..][last - open - 1];
    }
  }

  // ----- the reader -----

  datatype Parsed = Parsed(stored: nat, failed: nat, total: nat, retryable: bool, known: bool)

  function Unread(): Parsed { Parsed(0, 0, 0, false, false) }

  /** isPartialUploadMessage. */
  predicate IsPartialUploadMessage(msg: string) { HasPrefix(msg, PREFIX) }

  /** parsePartialUploadMessage. */
  function Parse(msg: string): Parsed {
    var m := MatchCounts(msg);
    if m.None? then Unread()
    else
      var stored, total, failed := ParseUint64(m.value.0), ParseUint64(m.value.1), ParseUint64(m.value.2);
      if stored.None? || total.None? || failed.None? then Unread()
      else
        var tail := MatchTail(msg);
        Parsed(stored.value as nat, failed.value as nat, total.value as nat,
               tail == Some(true), tail.Some?)
  }

  /** The C++ client's parse_partial_upload_message. Its expression is Go's. */
  function CppParse(msg: string): Parsed {
    var m := MatchCounts(msg);
    if m.None? then Unread()
    else
      var stored := ParseDecimalU64(m.value.0);
      if stored.None? then Unread() else
      var total := ParseDecimalU64(m.value.1);
      if total.None? then Unread() else
      var failed := ParseDecimalU64(m.value.2);
      if failed.None? then Unread() else
      var counts := Parsed(stored.value as nat, failed.value as nat, total.value as nat, false, false);
      match CppRetention(msg)
      case Some(true) => counts.(retryable := true, known := true)
      case Some(false) => counts.(known := true)
      case None => counts
  }

  /** The two clients read the same counts and flags from every message. */
  lemma ClientsParseAlike(msg: string)
    ensures CppParse(msg) == Parse(msg)
  {
    hide MatchCounts, MatchTail, CppRetention, ParseUint64, ParseDecimalU64;
    ScanIsPattern(msg);
    var m := MatchCounts(msg);
    if m.Some? {
      ConversionsAgree(m.value.0);
      ConversionsAgree(m.value.1);
      ConversionsAgree(m.value.2);
    }
  }

  /** The reader in terms of the two patterns alone. */
  lemma ParseByPatterns(msg: string, stored: string, total: string, failed: string)
    requires CountsMatch(msg, stored, total, failed)
    requires Value(stored) < TWO_64 && Value(total) < TWO_64 && Value(failed) < TWO_64
    ensures var p := Parse(msg);
            && p.stored == Value(stored) && p.total == Value(total) && p.failed == Value(failed)
            && (p.known <==> TailMatch(msg, true) || TailMatch(msg, false))
            && (p.retryable <==> TailMatch(msg, true))
  {
    hide MatchCounts, MatchTail, TailMatch, Head;
    MatchCountsComplete(msg, stored, total, failed);
    MatchTailSound(msg);
    if TailMatch(msg, true) { MatchTailComplete(msg, true); }
    if TailMatch(msg, false) { MatchTailComplete(msg, false); }
  }

  // ----- the daemon's message -----

  datatype PartialUpload = PartialUpload(stored: nat, failed: nat, total: nat, reason: string, retryable: bool)

  predicate FitsU64(e: PartialUpload) { e.stored < TWO_64 && e.failed < TWO_64 && e.total < TWO_64 }

  const AGAIN := ": call finalize again with " + "the same upload_id "
  const REMAINDER := "to store the remainder " + "against the same payment"
  const RETRY_ONLY := " to retry only the remainder"

  /** What follows the hint the client looks for, up to the closing parenthesis. */
  function Advice(retryable: bool): string { if retryable then AGAIN + REMAINDER else RETRY_ONLY }

  lemma AgainHasNoParens()
    ensures NoParens(AGAIN)
  {}

  lemma RemainderHasNoParens()
    ensures NoParens(REMAINDER)
  {}

  lemma RetryOnlyHasNoParens()
    ensures NoParens(RETRY_ONLY)
  {}

  lemma AdviceHasNoParens(retryable: bool)
    ensures NoParens(Advice(retryable))
  {
    hide AGAIN, REMAINDER, RETRY_ONLY;
    AgainHasNoParens();
    RemainderHasNoParens();
    RetryOnlyHasNoParens();
  }

  function HeadOf(e: PartialUpload): string { Head(Print(e.stored), Print(e.total), Print(e.failed)) }

  /** Everything before the reason. */
  function Lead(e: PartialUpload): string { HeadOf(e) + " after retries: " }

  /** The Display text of AntdError::PartialUpload. */
  function Message(e: PartialUpload): string {
    Lead(e) + (e.reason + (" " + HintGroup(e.retryable, Advice(e.retryable))))
  }

  /** The message's whole layout. */
  lemma MessageLayout(e: PartialUpload)
    ensures Message(e)
         == "Partial upload: " + Print(e.stored) + "/" + Print(e.total) + " chunks stored, " + Print(e.failed)
            + " failed after retries: " + e.reason + " ("
            + (if e.retryable then
                 "paid attempt retained" + (": call finalize again with " + "the same upload_id "
                                            + ("to store the remainder " + "against the same payment"))
               else
                 "stored chunks persist; " + "re-prepare the same " + "content" + " to retry only the remainder")
            + ")"
  {
    hide Print, AGAIN, REMAINDER, RETRY_ONLY, RETAINED, NOT_RETAINED, PREFIX;
    Literals();
    LayoutOf(Print(e.stored), Print(e.total), Print(e.failed), e.reason, Hint(e.retryable), Advice(e.retryable));
  }

  lemma LayoutOf(s: string, t: string, f: string, reason: string, hint: string, advice: string)
    ensures Head(s, t, f) + " after retries: " + (reason + (" " + ("(" + hint + advice + ")")))
         == "Partial upload: " + s + "/" + t + " chunks stored, " + f + " failed after retries: " + reason + " ("
            + (hint + advice) + ")"
  {
    assert PREFIX + " " == "Partial upload: " && " failed" + " after retries: " == " failed after retries: ";
    var head := "Partial upload: " + s + "/" + t + " chunks stored, " + f;
    Regroup(head, " failed", " after retries: ", reason, hint, advice);
  }

  lemma Regroup(head: string, failed: string, after: string, reason: string, hint: string, advice: string)
    ensures head + failed + after + (reason + (" " + ("(" + hint + advice + ")")))
         == head + (failed + after) + reason + " (" + (hint + advice) + ")"
  {
    assert " " + ("(" + hint + advice + ")") == " (" + (hint + advice) + ")";
  }

  lemma Literals()
    ensures PREFIX == "Partial upload:" && RETAINED == "paid attempt retained"
    ensures NOT_RETAINED == "stored chunks persist; " + "re-prepare the same " + "content"
    ensures AGAIN == ": call finalize again with " + "the same upload_id "
    ensures REMAINDER == "to store the remainder " + "against the same payment"
    ensures RETRY_ONLY == " to retry only the remainder"
  {}

  lemma HeadIsPrefix(e: PartialUpload, cut: string)
    requires HeadOf(e) <= cut
    ensures CountsMatch(cut, Print(e.stored), Print(e.total), Print(e.failed))
  {}

  /** For all counts, either hint and any reason, however it quotes hints or
      parentheses, the reader recovers exactly what the daemon wrote. */
  lemma MessageRoundTrip(e: PartialUpload)
    requires FitsU64(e)
    ensures Parse(Message(e)) == Parsed(e.stored, e.failed, e.total, e.retryable, true)
    ensures IsPartialUploadMessage(Message(e))
  {
    hide MatchCounts, MatchTail, Head, Advice, Hint;
    var msg := Message(e);
    ValueOfPrint(e.stored);
    ValueOfPrint(e.total);
    ValueOfPrint(e.failed);
    MessageStarts(e);
    HeadIsPrefix(e, msg);
    AdviceHasNoParens(e.retryable);
    TailOfMessage(e);
    MatchTailComplete(msg, e.retryable);
    MatchCountsComplete(msg, Print(e.stored), Print(e.total), Print(e.failed));
  }

  lemma TailOfMessage(e: PartialUpload)
    ensures TailMatch(Message(e), e.retryable)
  {
    hide HintGroup, Advice, Lead;
    AdviceHasNoParens(e.retryable);
    var group := HintGroup(e.retryable, Advice(e.retryable));
    assert Message(e) == Lead(e) + e.reason + " " + group;
  }

  lemma MessageStarts(e: PartialUpload)
    ensures HeadOf(e) <= Message(e) && PREFIX <= Message(e)
  {
    hide Head, HintGroup, Advice;
    HeadOpens(Print(e.stored), Print(e.total), Print(e.failed));
    assert HeadOf(e) <= Lead(e) <= Message(e);
  }

  lemma HeadOpens(stored: string, total: string, failed: string)
    ensures PREFIX <= Head(stored, total, failed)
  {
    assert Head(stored, total, failed)
        == PREFIX + (" " + stored + "/" + total + " chunks stored, " + failed + " failed");
  }
}
