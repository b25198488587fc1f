/** Cut-off partial-upload messages: what the Go reader makes of every strict
    prefix of what the daemon wrote (antd-go/errors.go). */
module PartialTruncation {
  import opened Text
  import opened Decimal
  import opened PartialMessage

  /** The reason text itself holds a closed group that opens with the hint. */
  ghost predicate QuotesHint(reason: string, retained: bool) {
    exists pre, mid, post :: NoParens(mid) && reason == pre + HintGroup(retained, mid) + post
  }

  lemma {:induction false} DigitsHaveNoParens(s: string)
    requires AllDigits(s)
    ensures NoParens(s)
  {}

  lemma NoParensAt(s: string)
    requires NoParens(s)
    ensures forall i :: 0 <= i < |s| ==> !IsParen(s[i])
  {
    forall i | 0 <= i < |s| ensures !IsParen(s[i]) { assert s[i] in s; }
  }

  lemma NoParensAppend(a: string, b: string)
    ensures NoParens(a + b) <==> NoParens(a) && NoParens(b)
  {
    assert forall c :: c in a + b <==> c in a || c in b;
  }

  lemma LeadHasNoParens(e: PartialUpload)
    ensures NoParens(Lead(e))
  {
    DigitsHaveNoParens(Print(e.stored));
    DigitsHaveNoParens(Print(e.total));
    DigitsHaveNoParens(Print(e.failed));
    LeadPieces(Print(e.stored), Print(e.total), Print(e.failed));
  }

  lemma LeadPieces(stored: string, total: string, failed: string)
    requires NoParens(stored) && NoParens(total) && NoParens(failed)
    ensures NoParens(Head(stored, total, failed) + " after retries: ")
  {
    var a := PREFIX + " " + stored;
    var b := a + "/" + total;
    var c := b + " chunks stored, " + failed;
    assert NoParens(a);
    assert NoParens(b);
    assert NoParens(c);
    assert NoParens(c + " failed");
  }

  /** The closing text holds no `)` but its last byte. */
  lemma ClosingParen(e: PartialUpload, i: nat)
    requires i + 1 < |" " + HintGroup(e.retryable, Advice(e.retryable))|
    ensures (" " + HintGroup(e.retryable, Advice(e.retryable)))[i] != ')'
  {
    hide Hint, Advice;
    HintsHaveNoParens(e.retryable);
    AdviceHasNoParens(e.retryable);
    var inner := Hint(e.retryable) + Advice(e.retryable);
    NoParensAppend(Hint(e.retryable), Advice(e.retryable));
    assert " " + HintGroup(e.retryable, Advice(e.retryable)) == " (" + inner + ")";
    if i >= 2 { assert (" (" + inner + ")")[i] == inner[i - 2] && inner[i - 2] in inner; }
  }

  /** Where a tail match of a strict prefix can lie: inside the reason. */
  lemma MatchLiesInReason(a: string, b: string, c: string, k: nat, pre: string, retained: bool, mid: string)
    requires NoParens(a) && k < |a + (b + c)|
    requires forall i :: 0 <= i < |c| - 1 ==> c[i] != ')'
    requires NoParens(mid) && (a + (b + c))[..k] == pre + HintGroup(retained, mid)
    ensures QuotesHint(b, retained)
  {
    hide Hint;
    var msg, group := a + (b + c), HintGroup(retained, mid);
    var open := |pre|;
    assert k == open + |group| && |group| >= 2;
    assert msg[..k][open] == group[0] == '(' && msg[..k][k - 1] == group[|group| - 1] == ')';
    NoParensAt(a);
    assert |a| <= open;
    assert k <= |a| + |b|;
    Slices(a, b, c, open, k);
    assert msg[open..k] == group by {
      assert (pre + group)[open..k] == group;
      assert msg[..k][open..k] == msg[open..k];
    }
    assert b == b[..open - |a|] + HintGroup(retained, mid) + b[k - |a|..];
  }

  lemma Slices(a: string, b: string, c: string, open: nat, k: nat)
    requires |a| <= open <= k <= |a| + |b|
    ensures b == b[..open - |a|] + (a + (b + c))[open..k] + b[k - |a|..]
  {
    assert (a + (b + c))[open..k] == b[open - |a|..k - |a|];
  }

  lemma CutMatchQuotes(e: PartialUpload, k: nat, retained: bool)
    requires k < |Message(e)| && TailMatch(Message(e)[..k], retained)
    ensures QuotesHint(e.reason, retained)
  {
    hide Lead, HintGroup, QuotesHint;
    var c := " " + HintGroup(e.retryable, Advice(e.retryable));
    var pre, mid :| NoParens(mid) && Message(e)[..k] == pre + HintGroup(retained, mid);
    LeadHasNoParens(e);
    forall i | 0 <= i < |c| - 1 ensures c[i] != ')' { ClosingParen(e, i); }
    MatchLiesInReason(Lead(e), e.reason, c, k, pre, retained, mid);
  }

  /** A quoted hint can be cut so that it ends the text. */
  lemma QuotedHintMisleads(e: PartialUpload, retained: bool) returns (k: nat)
    requires QuotesHint(e.reason, retained)
    ensures |HeadOf(e)| <= k < |Message(e)| && TailMatch(Message(e)[..k], retained)
  {
    hide HintGroup, Head;
    var pre, mid, post :| NoParens(mid) && e.reason == pre + HintGroup(retained, mid) + post;
    var group := HintGroup(retained, mid);
    var closing := " " + HintGroup(e.retryable, Advice(e.retryable));
    k := |Lead(e)| + |pre| + |group|;
    assert Message(e) == Lead(e) + pre + group + (post + closing);
    assert Message(e)[..k] == Lead(e) + pre + group;
  }

  lemma CutCounts(e: PartialUpload, k: nat)
    requires FitsU64(e) && k <= |Message(e)|
    ensures k < |HeadOf(e)| ==> Parse(Message(e)[..k]) == Unread()
    ensures k >= |HeadOf(e)| ==> CountsMatch(Message(e)[..k], Print(e.stored), Print(e.total), Print(e.failed))
  {
    hide Head, Lead, MatchTail, MatchCounts;
    MessageStarts(e);
    var cut := Message(e)[..k];
    if k >= |HeadOf(e)| {
      assert HeadOf(e) <= cut;
    } else {
      MatchCountsSound(cut);
      var m := MatchCounts(cut);
      if m.Some? {
        assert cut <= Message(e);
        MatchCountsComplete(Message(e), m.value.0, m.value.1, m.value.2);
        MatchCountsComplete(Message(e), Print(e.stored), Print(e.total), Print(e.failed));
      }
    }
  }

  lemma CutParse(e: PartialUpload, k: nat)
    requires FitsU64(e) && |HeadOf(e)| <= k <= |Message(e)|
    ensures var p, cut := Parse(Message(e)[..k]), Message(e)[..k];
            && p.stored == e.stored && p.failed == e.failed && p.total == e.total
            && (p.known <==> TailMatch(cut, true) || TailMatch(cut, false))
            && (p.retryable <==> TailMatch(cut, true))
  {
    hide Parse, TailMatch, CountsMatch, Message;
    CutCounts(e, k);
    ValueOfPrint(e.stored);
    ValueOfPrint(e.total);
    ValueOfPrint(e.failed);
    ParseByPatterns(Message(e)[..k], Print(e.stored), Print(e.total), Print(e.failed));
  }

  ghost predicate SomeCutKnown(e: PartialUpload) { exists k :: 0 <= k < |Message(e)| && Parse(Message(e)[..k]).known }

  ghost predicate SomeCutRetryable(e: PartialUpload) {
    exists k :: 0 <= k < |Message(e)| && Parse(Message(e)[..k]).retryable
  }

  /** No truncation is misread: on every strict prefix the counts are exact, or
      all zero with both flags false. */
  lemma TruncatedCounts(e: PartialUpload, k: nat)
    requires FitsU64(e) && k < |Message(e)|
    ensures var p := Parse(Message(e)[..k]);
            if k < |HeadOf(e)| then p == Unread()
            else p.stored == e.stored && p.failed == e.failed && p.total == e.total
    ensures Parse(Message(e)[..k]).retryable ==> Parse(Message(e)[..k]).known
  {
    hide Parse, Message;
    CutCounts(e, k);
    if k >= |HeadOf(e)| { CutParse(e, k); }
  }

  /** Retention is read off some strict prefix exactly when the reason quotes a
      hint in a closed group, and as retained exactly for the retained hint. */
  lemma TruncatedRetention(e: PartialUpload)
    requires FitsU64(e)
    ensures SomeCutKnown(e) <==> QuotesHint(e.reason, true) || QuotesHint(e.reason, false)
    ensures SomeCutRetryable(e) <==> QuotesHint(e.reason, true)
  {
    hide Parse, Message, TailMatch, QuotesHint;
    forall k: nat | k < |Message(e)| && Parse(Message(e)[..k]).known
      ensures QuotesHint(e.reason, true) || QuotesHint(e.reason, false)
      ensures Parse(Message(e)[..k]).retryable ==> QuotesHint(e.reason, true)
    {
      CutKnown(e, k);
    }
    forall k: nat | k < |Message(e)| && Parse(Message(e)[..k]).retryable ensures Parse(Message(e)[..k]).known {
      TruncatedCounts(e, k);
    }
    if QuotesHint(e.reason, true) {
      var k := QuotedHintMisleads(e, true);
      CutParse(e, k);
    }
    if QuotesHint(e.reason, false) {
      var k := QuotedHintMisleads(e, false);
      CutParse(e, k);
    }
  }

  lemma CutKnown(e: PartialUpload, k: nat)
    requires FitsU64(e) && k < |Message(e)| && Parse(Message(e)[..k]).known
    ensures QuotesHint(e.reason, true) || QuotesHint(e.reason, false)
    ensures Parse(Message(e)[..k]).retryable ==> QuotesHint(e.reason, true)
  {
    hide Parse, Message, TailMatch, QuotesHint;
    CutCounts(e, k);
    assert k >= |HeadOf(e)|;
    CutParse(e, k);
    if TailMatch(Message(e)[..k], true) { CutMatchQuotes(e, k, true); }
    if TailMatch(Message(e)[..k], false) { CutMatchQuotes(e, k, false); }
  }

  lemma RetainedGroup()
    ensures "(paid attempt retained)" == "" + HintGroup(true, "") + ""
  {}

  /** A reason that does: the whole message says that nothing was retained, and
      cut right after the reason it is read as retained. */
  lemma MisreadExample()
    ensures var e := PartialUpload(1, 1, 2, "(paid attempt retained)", false);
            && QuotesHint(e.reason, true)
            && Parse(Message(e)) == Parsed(1, 1, 2, false, true)
            && exists k :: 0 <= k < |Message(e)| && Parse(Message(e)[..k]) == Parsed(1, 1, 2, true, true)
  {
    hide Parse, Message, TailMatch, HintGroup, HeadOf;
    var e := PartialUpload(1, 1, 2, "(paid attempt retained)", false);
    RetainedGroup();
    MessageRoundTrip(e);
    var k := QuotedHintMisleads(e, true);
    CutParse(e, k);
    assert Parse(Message(e)[..k]) == Parsed(1, 1, 2, true, true);
  }

  lemma NoClosingParenIsSafe(reason: string, retained: bool)
    requires ')' !in reason
    ensures !QuotesHint(reason, retained)
  {
    forall pre, mid, post ensures reason != pre + HintGroup(retained, mid) + post {
      assert ')' in HintGroup(retained, mid);
    }
  }

  // ----- the daemon's own reason -----

  /** The reason finalize_pending gives (antd/src/rest/upload.rs). */
  function FinalizeReason(failed: nat, uploadId: string): string {
    Print(failed) + " chunk" + "(s)"
    + (" still unstored after " + "retries; upload_id " + uploadId + " keeps the paid attempt")
  }

  lemma OneGroup(left: string, right: string, retained: bool)
    requires NoParens(left) && NoParens(right)
    ensures !QuotesHint(left + "(s)" + right, retained)
  {
    var reason := left + "(s)" + right;
    NoParensAt(left);
    NoParensAt(right);
    if QuotesHint(reason, retained) {
      var pre, mid, post :| NoParens(mid) && reason == pre + HintGroup(retained, mid) + post;
      var open := |pre|;
      assert reason[open] == '(';
      assert open == |left|;
      assert reason[open + 2] == ')';
      assert reason[open + 2] == Hint(retained)[1];
      SecondOfHint(retained);
    }
  }

  lemma SecondOfHint(retained: bool)
    ensures |Hint(retained)| > 2 && Hint(retained)[1] != ')'
  {}

  lemma ReasonTail(uploadId: string)
    requires NoParens(uploadId)
    ensures NoParens(" still unstored after " + "retries; upload_id " + uploadId + " keeps the paid attempt")
  {
    assert NoParens(" still unstored after " + "retries; upload_id ");
    assert NoParens(" keeps the paid attempt");
  }

  /** With no parenthesis in the upload id, no cut of a finalize shortfall's
      message reads as an answer on retention. */
  lemma FinalizeMessageIsSafe(e: PartialUpload, uploadId: string)
    requires FitsU64(e) && e.reason == FinalizeReason(e.failed, uploadId) && NoParens(uploadId)
    ensures !SomeCutKnown(e)
  {
    var left := Print(e.failed) + " chunk";
    var right := " still unstored after " + "retries; upload_id " + uploadId + " keeps the paid attempt";
    DigitsHaveNoParens(Print(e.failed));
    NoParensAppend(Print(e.failed), " chunk");
    ReasonTail(uploadId);
    OneGroup(left, right, true);
    OneGroup(left, right, false);
    TruncatedRetention(e);
  }
}
