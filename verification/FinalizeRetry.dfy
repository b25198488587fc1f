/** The bounded finalize retry (finalize_with_retry,
    antd-cpp/examples/07-external-signer.cpp). */
module FinalizeRetry {

  const MAX_ATTEMPTS: nat := 5

  datatype Partial = Partial(stored: nat, failed: nat, total: nat, retryable: bool, known: bool)

  /** What one finalize_upload call does: return, throw a PartialUploadError,
      or throw anything else. */
  datatype Outcome = Done(result: string) | Short(partial: Partial) | Failed(status: int)

  /** Which diagnosis the rethrown error carries. */
  datatype Diagnosis = ReconcileFirst | NothingRetained | StuckAfter(attempts: nat)

  datatype Final = Returned(result: string) | ThrewShort(partial: Partial, why: Diagnosis) | ThrewOther(status: int)

  /** The call's outcomes, in order; outcome j is that of call j + 1. */
  type Script = nat -> Outcome

  // ----- when another call is made -----

  predicate RetryablePartial(o: Outcome) { o.Short? && o.partial.known && o.partial.retryable }

  /** Call k (from 1) is stuck: it left no fewer chunks than the call before. */
  predicate Stuck(s: Script, k: nat)
    requires k >= 1
  {
    k > 1 && s(k - 1).Short? && s(k - 2).Short? && s(k - 1).partial.failed >= s(k - 2).partial.failed
  }

  predicate Continues(s: Script, k: nat)
    requires k >= 1
  {
    RetryablePartial(s(k - 1)) && k < MAX_ATTEMPTS && !Stuck(s, k)
  }

  /** The loop makes exactly k calls. */
  ghost predicate StopsAt(s: Script, k: nat) {
    k >= 1 && !Continues(s, k) && forall j :: 1 <= j < k ==> Continues(s, j)
  }

  function Verdict(s: Script, k: nat): Final
    requires k >= 1
  {
    match s(k - 1)
    case Done(r) => Returned(r)
    case Failed(status) => ThrewOther(status)
    case Short(p) =>
      ThrewShort(p, if !p.known then ReconcileFirst else if !p.retryable then NothingRetained else StuckAfter(k))
  }

  /** finalize_with_retry: the calls it makes, the seconds it sleeps, and how
      it ends. */
  method FinalizeWithRetry(s: Script) returns (final: Final, calls: nat, slept: nat)
    ensures StopsAt(s, calls) && calls <= MAX_ATTEMPTS
    ensures final == Verdict(s, calls)
    ensures slept == calls * (calls - 1)
  {
    var lastFailed: nat := 0;
    var attempt := 1;
    slept := 0;
    while true
      invariant 1 <= attempt <= MAX_ATTEMPTS
      invariant forall j :: 1 <= j < attempt ==> Continues(s, j)
      invariant attempt > 1 ==> s(attempt - 2).Short? && lastFailed == s(attempt - 2).partial.failed
      invariant slept == attempt * (attempt - 1)
      decreases MAX_ATTEMPTS - attempt
    {
      match s(attempt - 1) {
        case Done(r) => return Returned(r), attempt, slept;
        case Failed(status) => return ThrewOther(status), attempt, slept;
        case Short(e) =>
          if !e.known { return ThrewShort(e, ReconcileFirst), attempt, slept; }
          if !e.retryable { return ThrewShort(e, NothingRetained), attempt, slept; }
          var stuck := attempt > 1 && e.failed >= lastFailed;
          if attempt >= MAX_ATTEMPTS || stuck {
            return ThrewShort(e, StuckAfter(attempt)), attempt, slept;
          }
          lastFailed := e.failed;
          slept := slept + 2 * attempt;
          attempt := attempt + 1;
      }
    }
  }

  // ----- what every run keeps -----

  /** The number of calls is settled by the outcomes. */
  lemma StopsOnce(s: Script, k: nat, k': nat)
    requires StopsAt(s, k) && StopsAt(s, k')
    ensures k == k'
  {}

  /** Call k + 1 follows only retryable partials whose failed counts strictly
      fall, so never a success, an unknown retention or another error. */
  lemma {:induction false} RetriesFall(s: Script, k: nat, i: nat, j: nat)
    requires StopsAt(s, k) && i < j && j + 1 < k
    ensures RetryablePartial(s(i)) && RetryablePartial(s(j))
    ensures s(j).partial.failed + (j - i) <= s(i).partial.failed
    decreases j - i
  {
    assert Continues(s, i + 1) && Continues(s, j + 1);
    if i + 1 < j {
      RetriesFall(s, k, i, j - 1);
      assert Continues(s, j);
    }
  }

  /** The run returns exactly when some call it makes succeeds, and it rethrows
      the last call's own counts and flags otherwise. */
  lemma ReturnsIffSuccess(s: Script, k: nat)
    requires StopsAt(s, k)
    ensures Verdict(s, k).Returned? <==> exists j :: 0 <= j < k && s(j).Done?
    ensures Verdict(s, k).ThrewShort? ==> s(k - 1) == Short(Verdict(s, k).partial)
    ensures k <= 5
  {
    assert !Continues(s, MAX_ATTEMPTS);
    forall j | 0 <= j && j + 1 < k ensures !s(j).Done? { NotDoneBefore(s, k, j); }
  }

  lemma NotDoneBefore(s: Script, k: nat, j: nat)
    requires StopsAt(s, k) && j + 1 < k
    ensures !s(j).Done?
  {
    assert Continues(s, j + 1);
  }

  /** Four retryable partials whose failed counts fall are followed by a fifth
      call, and by no sixth. */
  lemma FifthCallIsLast(s: Script)
    requires forall j :: 0 <= j < 4 ==> RetryablePartial(s(j))
    requires forall i, j :: 0 <= i < j < 4 ==> s(i).Short? && s(j).Short? && s(j).partial.failed < s(i).partial.failed
    ensures StopsAt(s, 5)
  {
    assert RetryablePartial(s(0)) && RetryablePartial(s(1)) && RetryablePartial(s(2)) && RetryablePartial(s(3));
    assert Continues(s, 1);
    assert Continues(s, 2) && Continues(s, 3) && Continues(s, 4);
  }

  /** Which diagnosis a rethrown partial carries: to reconcile first when its
      retention is unknown, that nothing was retained when it says so, and
      otherwise that the run is stuck, after five calls or after a call that
      left no fewer chunks than the one before. */
  lemma Diagnosed(s: Script, k: nat)
    requires StopsAt(s, k) && Verdict(s, k).ThrewShort?
    ensures var final, last := Verdict(s, k), s(k - 1).partial;
            && (final.why == ReconcileFirst <==> !last.known)
            && (final.why == NothingRetained <==> last.known && !last.retryable)
            && (final.why.StuckAfter? ==> final.why == StuckAfter(k) && last.known && last.retryable)
            && (final.why.StuckAfter? && k != 5 ==>
                  1 < k < 5 && s(k - 2).Short? && last.failed >= s(k - 2).partial.failed)
  {
    ReturnsIffSuccess(s, k);
    if RetryablePartial(s(k - 1)) && k < MAX_ATTEMPTS { StopsByStuckRule(s, k); }
  }

  /** A retryable partial ends the run before the cap only by the stuck rule. */
  lemma StopsByStuckRule(s: Script, k: nat)
    requires StopsAt(s, k) && k < MAX_ATTEMPTS && RetryablePartial(s(k - 1))
    ensures k >= 2 && s(k - 2).Short? && s(k - 1).partial.failed >= s(k - 2).partial.failed
  {
    assert Stuck(s, k);
  }

  /** The stuck rule without the cap. */
  predicate ContinuesUncapped(s: Script, k: nat)
    requires k >= 1
  {
    RetryablePartial(s(k - 1)) && !Stuck(s, k)
  }

  /** Even without the cap the loop ends: it can go on past call k only if the
      first call left at least k - 1 chunks unstored. */
  lemma {:induction false} StuckRuleTerminates(s: Script, k: nat)
    requires k >= 1 && forall j :: 1 <= j <= k ==> ContinuesUncapped(s, j)
    ensures s(0).Short? && s(k - 1).Short? && s(k - 1).partial.failed + (k - 1) <= s(0).partial.failed
  {
    assert ContinuesUncapped(s, k);
    if k > 1 { StuckRuleTerminates(s, k - 1); }
  }
}
