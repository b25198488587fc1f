/** The retry loop against the daemon's session store (finalize_upload and
    finalize_pending, antd/src/rest/upload.rs; UploadSession, antd/src/state.rs). */
module RetryAgainstDaemon {
  import opened FinalizeRetry
  import opened Text

  type ChunkId = nat
  type Payment = string

  /** A pending upload: quoted and unpaid, or paid and partly stored. */
  datatype Session = Prepared(chunks: set<ChunkId>) | Resume(remaining: set<ChunkId>, payment: Payment)

  /** The daemon's view of one upload_id, the network's stored chunks, and the
      payment each chunk of this upload was stored against. */
  datatype Daemon = Daemon(session: Option<Session>, stored: set<ChunkId>, paidBy: map<ChunkId, Payment>)

  /** How ant-core's store attempt ends: it runs to an outcome, or raises an
      error, which may be a shortfall that retains nothing. */
  datatype CoreRun = Runs | Errs(status: int) | GivesUp(stored: nat, failed: nat, total: nat)

  /** What the client gets of the response: all of it, nothing, or a partial
      upload whose retention answer cannot be read. */
  datatype Delivery = Arrives | Lost | RetentionUnread

  /** One finalize call: the payment its artefacts name, and what happens around
      it, namely whether the session expires before it, which chunks reach a
      quorum, how the attempt ends, whether storing the data map fails
      afterwards, and what becomes of the response. */
  datatype Event = Event(request: Payment, expires: bool, reached: set<ChunkId>, core: CoreRun, dataMapFails: bool,
                         delivery: Delivery)

  /** The whole upload: its chunks, and which payments its quotes accept. */
  datatype Upload = Upload(chunks: set<ChunkId>, accepts: Payment -> bool)

  /** The store attempt of finalize_pending, against `payment`. It has taken
      the session out of the store; only a shortfall puts one back. */
  function Attempt(d: Daemon, u: Upload, remaining: set<ChunkId>, payment: Payment, e: Event): (Outcome, Daemon) {
    var got, left := remaining * e.reached, remaining - e.reached;
    var after := Taken(d, got, payment);
    match e.core
    case Errs(status) => (Failed(status), after)
    case GivesUp(stored, failed, total) => (Short(Partial(stored, failed, total, false, true)), after)
    case Runs =>
      if left == {} then (if e.dataMapFails then Failed(500) else Done("data map"), after)
      else
        (Short(Partial(|u.chunks| - CountLeft(u, left), CountLeft(u, left), |u.chunks|, true, true)),
         after.(session := Some(Resume(left, payment))))
  }

  /** The session taken out, and `got` newly stored against `payment`. */
  function Taken(d: Daemon, got: set<ChunkId>, payment: Payment): Daemon {
    Daemon(None, d.stored + got, d.paidBy + map c | c in got :: payment)
  }

  /** The outcome as the client sees it. */
  function Delivered(o: Outcome, delivery: Delivery): Outcome {
    match delivery
    case Arrives => o
    case Lost => Failed(0)
    case RetentionUnread => if o.Short? then Short(o.partial.(retryable := false, known := false)) else o
  }

  /** The unstored count, never above the total. */
  function CountLeft(u: Upload, left: set<ChunkId>): (n: nat)
    ensures n <= |u.chunks|
  {
    if |left| <= |u.chunks| then |left| else |u.chunks|
  }

  /** One finalize_upload call: an unknown upload_id is a 404; bad artefacts
      for an unpaid session are a 400 that consumes nothing; a resumed session
      keeps its own payment whatever the request carries. */
  function Finalize(d0: Daemon, u: Upload, e: Event): (Outcome, Daemon) {
    var d := if e.expires then d0.(session := None) else d0;
    var r := match d.session
             case None => (Failed(404), d)
             case Some(Prepared(chunks)) =>
               if !u.accepts(e.request) then (Failed(400), d) else Attempt(d, u, chunks, e.request, e)
             case Some(Resume(remaining, payment)) => Attempt(d, u, remaining, payment, e);
    (Delivered(r.0, e.delivery), r.1)
  }

  // ----- what one call does to the session -----

  predicate Unpaid(d: Daemon) { d.session.Some? && d.session.value.Prepared? }

  /** The call finds the session, and gets as far as a store attempt: the
      session is paid for already, or its quotes accept the request. */
  predicate Attempts(d: Daemon, u: Upload, e: Event) {
    d.session.Some? && !e.expires && (Unpaid(d) ==> u.accepts(e.request))
  }

  /** The chunks a session still has to store. */
  function Pending(s: Session): set<ChunkId> { if s.Prepared? then s.chunks else s.remaining }

  /** A session that has not expired leaves the store only through an attempt
      that raises an error or stores all that was pending; an attempt that
      falls short leaves the rest, under the payment it used; and no other call
      touches it. Only an attempt stores chunks, and just those reached. */
  lemma SessionFate(d: Daemon, u: Upload, e: Event)
    requires d.session.Some? && !e.expires
    ensures var d', pending := Finalize(d, u, e).1, Pending(d.session.value);
            && (!Attempts(d, u, e) ==> d' == d)
            && (d'.session == None <==> Attempts(d, u, e) && (!e.core.Runs? || pending <= e.reached))
            && (Attempts(d, u, e) && d'.session.Some? ==>
                  d'.session.value
                  == Resume(pending - e.reached, if Unpaid(d) then e.request else d.session.value.payment))
            && (Attempts(d, u, e) ==> d'.stored == d.stored + pending * e.reached)
  {
    var pending := Pending(d.session.value);
    NoneLeft(pending, e.reached);
  }

  /** What the client is told: success only when all that was pending was
      reached and the data map is stored; otherwise a shortfall with what is
      left, or an error; and nothing at all when the response is lost. */
  lemma AttemptOutcome(d: Daemon, u: Upload, e: Event)
    requires Attempts(d, u, e)
    ensures var o, pending := Finalize(d, u, e).0, Pending(d.session.value);
            && (o.Done? <==> e.core.Runs? && pending <= e.reached && !e.dataMapFails && !e.delivery.Lost?)
            && (o.Short? <==> !e.delivery.Lost? && (e.core.GivesUp? || (e.core.Runs? && !(pending <= e.reached))))
            && (e.delivery.Lost? ==> o == Failed(0))
            && (!e.delivery.Lost? && e.core.Errs? ==> o == Failed(e.core.status))
            && (!e.delivery.Lost? && e.core.Runs? && pending <= e.reached && e.dataMapFails ==> o == Failed(500))
            && (o.Short? ==> o.partial.known == !e.delivery.RetentionUnread?)
            && (o.Short? ==> o.partial.retryable == (e.core.Runs? && !e.delivery.RetentionUnread?))
  {
    NoneLeft(Pending(d.session.value), e.reached);
  }

  lemma NoneLeft(pending: set<ChunkId>, reached: set<ChunkId>)
    ensures pending - reached == {} <==> pending <= reached
  {
    if pending - reached == {} { AllStored(pending, reached); }
  }

  /** A call with artefacts the quotes do not accept is a 400 (unless its
      response is lost) and leaves no trace: the next call, whatever it is,
      ends as it would have without it. */
  lemma RejectedLeavesNoTrace(d: Daemon, u: Upload, bad: Event, next: Event)
    requires Unpaid(d) && !bad.expires && !u.accepts(bad.request)
    ensures Finalize(d, u, bad).0 == if bad.delivery.Lost? then Failed(0) else Failed(400)
    ensures Finalize(Finalize(d, u, bad).1, u, next) == Finalize(d, u, next)
  {
    hide Attempt;
  }

  /** An upload that is unknown, or has just expired, is a 404 that stores nothing. */
  lemma UnknownUpload(d: Daemon, u: Upload, e: Event)
    requires d.session == None || e.expires
    ensures Finalize(d, u, e).0 == if e.delivery.Lost? then Failed(0) else Failed(404)
    ensures Finalize(d, u, e).1 == d.(session := None)
  {
    hide Attempt;
  }

  // ----- runs of calls -----

  type Environment = nat -> Event

  /** The daemon after n calls, whatever the environment does around them. */
  function After(d: Daemon, u: Upload, env: Environment, n: nat): Daemon {
    if n == 0 then d else Finalize(After(d, u, env, n - 1), u, env(n - 1)).1
  }

  /** The outcomes those calls would have. */
  function Outcomes(d: Daemon, u: Upload, env: Environment): Script {
    (n: nat) => Finalize(After(d, u, env, n), u, env(n)).0
  }

  /** A freshly prepared upload: exactly its unstored chunks are pending, and
      nothing was stored against its payment yet. */
  ghost predicate Fresh(d: Daemon, u: Upload) {
    d.session == Some(Prepared(u.chunks - d.stored)) && d.paidBy == map[]
  }

  /** What every call keeps. `before` is what the network held at prepare. */
  ghost predicate Invariant(d: Daemon, u: Upload, before: set<ChunkId>, pay: Payment) {
    && before <= d.stored
    && d.paidBy.Keys == d.stored - before && d.stored - before <= u.chunks
    && (forall c :: c in d.paidBy ==> d.paidBy[c] == pay)
    && match d.session
       case None => true
       case Some(Prepared(chunks)) => chunks == u.chunks - d.stored && d.stored == before
       case Some(Resume(remaining, payment)) =>
         remaining == u.chunks - d.stored && remaining != {} && payment == pay
  }

  lemma PaidByGrows(paidBy: map<ChunkId, Payment>, got: set<ChunkId>, payment: Payment)
    requires forall c :: c in paidBy ==> paidBy[c] == payment
    ensures var p := paidBy + map c | c in got :: payment;
            p.Keys == paidBy.Keys + got && forall c :: c in p ==> p[c] == payment
  {}

  lemma TakenKeeps(d: Daemon, u: Upload, before: set<ChunkId>, pay: Payment, got: set<ChunkId>)
    requires Invariant(d, u, before, pay) && got <= u.chunks - d.stored
    ensures Invariant(Taken(d, got, pay), u, before, pay)
    ensures d.stored <= Taken(d, got, pay).stored == d.stored + got && Taken(d, got, pay).session == None
  {
    PaidByGrows(d.paidBy, got, pay);
    NewlyHeld(d.stored, before, got);
  }

  lemma NewlyHeld(stored: set<ChunkId>, before: set<ChunkId>, got: set<ChunkId>)
    requires before <= stored && got !! stored
    ensures (stored + got) - before == (stored - before) + got
  {}

  lemma ResumeKeeps(d: Daemon, u: Upload, before: set<ChunkId>, pay: Payment, left: set<ChunkId>)
    requires Invariant(d, u, before, pay) && left == u.chunks - d.stored && left != {}
    ensures Invariant(d.(session := Some(Resume(left, pay))), u, before, pay)
  {}

  lemma LeftIsUnstored(chunks: set<ChunkId>, stored: set<ChunkId>, reached: set<ChunkId>)
    ensures var got := (chunks - stored) * reached;
            got <= chunks - stored && chunks - (stored + got) == chunks - stored - reached
  {}

  lemma CountIsSize(u: Upload, left: set<ChunkId>)
    requires left <= u.chunks && left != {}
    ensures CountLeft(u, left) == |left| > 0
  {
    SubsetSize(left, u.chunks);
  }

  lemma AttemptKeeps(d: Daemon, u: Upload, before: set<ChunkId>, pay: Payment, e: Event)
    requires Invariant(d, u, before, pay)
    ensures var (o, d') := Attempt(d, u, u.chunks - d.stored, pay, e);
            Invariant(d', u, before, pay) && d.stored <= d'.stored && Means(o, d', u, pay)
  {
    hide Invariant, Taken, CountLeft;
    var got, left := (u.chunks - d.stored) * e.reached, u.chunks - d.stored - e.reached;
    LeftIsUnstored(u.chunks, d.stored, e.reached);
    TakenKeeps(d, u, before, pay, got);
    if e.core.Runs? {
      if left == {} {
        AllStored(u.chunks, d.stored + got);
      } else {
        CountIsSize(u, left);
        ResumeKeeps(Taken(d, got, pay), u, before, pay, left);
      }
    }
  }

  lemma AllStored(chunks: set<ChunkId>, stored: set<ChunkId>)
    requires chunks - stored == {}
    ensures chunks <= stored
  {
    forall c | c in chunks ensures c in stored { assert c !in chunks - stored; }
  }

  /** A retryable partial's counts tell the truth about the attempt kept. */
  ghost predicate Reports(p: Partial, d: Daemon, u: Upload, pay: Payment) {
    && p.stored + p.failed == p.total == |u.chunks|
    && p.failed == |u.chunks - d.stored| && p.failed > 0
    && p.known && d.session == Some(Resume(u.chunks - d.stored, pay))
  }

  /** What an outcome lets the client conclude about the daemon. */
  ghost predicate Means(o: Outcome, d: Daemon, u: Upload, pay: Payment) {
    && (o.Done? ==> u.chunks <= d.stored)
    && (o.Short? && o.partial.retryable ==> Reports(o.partial, d, u, pay))
    && (o.Short? && o.partial.known && !o.partial.retryable ==> d.session == None)
  }

  lemma SubsetSize(a: set<ChunkId>, b: set<ChunkId>)
    requires a <= b
    ensures |a| <= |b| && (|a| == |b| ==> a == b) && (a != {} ==> |a| > 0)
  {
    assert b == a + (b - a);
    if |a| == |b| { assert |b - a| == 0; }
  }

  lemma FinalizeKeeps(d: Daemon, u: Upload, before: set<ChunkId>, pay: Payment, e: Event)
    requires Invariant(d, u, before, pay) && (Unpaid(d) ==> e.request == pay)
    ensures var (o, d') := Finalize(d, u, e);
            Invariant(d', u, before, pay) && d.stored <= d'.stored && Means(o, d', u, pay)
  {
    hide Attempt;
    var d1 := if e.expires then d.(session := None) else d;
    AttemptKeeps(d1, u, before, pay, e);
  }

  /** The payment that a run of n calls uses: the request's while the session is
      unpaid, and from then on the one it was paid with. */
  function PaymentOf(d: Daemon, u: Upload, env: Environment, n: nat): Payment {
    if n == 0 then env(0).request
    else if Unpaid(After(d, u, env, n - 1)) then env(n - 1).request
    else PaymentOf(d, u, env, n - 1)
  }

  /** Any number of calls, each naming any payment, keep to one payment. */
  lemma {:induction false} RunKeeps(d: Daemon, u: Upload, env: Environment, n: nat)
    requires Fresh(d, u)
    ensures Invariant(After(d, u, env, n), u, d.stored, PaymentOf(d, u, env, n))
  {
    hide Finalize, Invariant, After, PaymentOf, Means, Outcomes;
    if n == 0 {
      RunStarts(d, u, env);
    } else {
      RunKeeps(d, u, env, n - 1);
      CallKeeps(d, u, env, n - 1);
    }
  }

  lemma CallKeeps(d: Daemon, u: Upload, env: Environment, n: nat)
    requires Invariant(After(d, u, env, n), u, d.stored, PaymentOf(d, u, env, n))
    ensures var d', pay := After(d, u, env, n + 1), PaymentOf(d, u, env, n + 1);
            && Invariant(d', u, d.stored, pay) && After(d, u, env, n).stored <= d'.stored
            && Means(Outcomes(d, u, env)(n), d', u, pay)
  {
    hide Finalize, Invariant, Means;
    var pay := PaymentOf(d, u, env, n + 1);
    if Unpaid(After(d, u, env, n)) { UnpaidSuitsAny(After(d, u, env, n), u, d.stored, PaymentOf(d, u, env, n), pay); }
    FinalizeKeeps(After(d, u, env, n), u, d.stored, pay, env(n));
  }

  lemma UnpaidSuitsAny(d: Daemon, u: Upload, before: set<ChunkId>, pay: Payment, other: Payment)
    requires Invariant(d, u, before, pay) && Unpaid(d)
    ensures Invariant(d, u, before, other)
  {}

  lemma RunStarts(d: Daemon, u: Upload, env: Environment)
    requires Fresh(d, u)
    ensures Invariant(After(d, u, env, 0), u, d.stored, PaymentOf(d, u, env, 0))
  {}

  lemma {:induction false} StoredGrows(d: Daemon, u: Upload, env: Environment, i: nat, j: nat)
    requires Fresh(d, u) && i <= j
    ensures After(d, u, env, i).stored <= After(d, u, env, j).stored
  {
    hide Finalize, After, PaymentOf, Invariant, Means, Outcomes;
    if i < j {
      StoredGrows(d, u, env, i, j - 1);
      RunKeeps(d, u, env, j - 1);
      CallKeeps(d, u, env, j - 1);
    }
  }

  /** Outcome n, in terms of the daemon it leaves. */
  lemma OutcomeMeans(d: Daemon, u: Upload, env: Environment, n: nat)
    requires Fresh(d, u)
    ensures var o, d' := Outcomes(d, u, env)(n), After(d, u, env, n + 1);
            Means(o, d', u, PaymentOf(d, u, env, n + 1))
  {
    hide Finalize, Means, Invariant;
    RunKeeps(d, u, env, n);
    CallKeeps(d, u, env, n);
  }

  /** What a run of k calls from `d` to `end` promises: each chunk was stored
      against the one payment only; no stored chunk was lost; it returned only
      with every chunk stored; an attempt is kept for exactly the unstored
      chunks if one is kept; one is in place, and its size reported, when the
      run gave up as stuck; and none is when told that nothing was retained. */
  ghost predicate Safe(d: Daemon, u: Upload, end: Daemon, final: Final, k: nat, pay: Payment) {
    && d.stored <= end.stored && end.stored - d.stored <= u.chunks
    && end.paidBy.Keys == end.stored - d.stored
    && (forall c :: c in end.paidBy ==> end.paidBy[c] == pay)
    && (final.Returned? ==> u.chunks <= end.stored)
    && (end.session.Some? && end.session.value.Resume? ==>
          end.session.value == Resume(u.chunks - end.stored, pay))
    && (final.ThrewShort? && final.why.StuckAfter? ==> final.why.attempts == k && Reports(final.partial, end, u, pay))
    && (final.ThrewShort? && final.why == NothingRetained ==> end.session == None)
  }

  /** No call makes a session unpaid again. */
  lemma {:induction false} PaidForGood(d: Daemon, u: Upload, env: Environment, k: nat)
    requires k >= 1 && !Unpaid(After(d, u, env, 1))
    ensures !Unpaid(After(d, u, env, k)) && PaymentOf(d, u, env, k) == env(0).request
  {
    hide Finalize;
    if k > 1 {
      PaidForGood(d, u, env, k - 1);
      StaysPaid(After(d, u, env, k - 1), u, env(k - 1));
    }
  }

  lemma StaysPaid(d: Daemon, u: Upload, e: Event)
    requires !Unpaid(d)
    ensures !Unpaid(Finalize(d, u, e).1)
  {}

  lemma UnpaidMeansFailed(d: Daemon, u: Upload, e: Event)
    requires Unpaid(Finalize(d, u, e).1)
    ensures Finalize(d, u, e).0.Failed?
  {}

  /** The retry loop keeps to the payment of its first call. */
  lemma FirstPaymentStays(d: Daemon, u: Upload, env: Environment, k: nat)
    requires StopsAt(Outcomes(d, u, env), k)
    ensures PaymentOf(d, u, env, k) == env(0).request
  {
    hide Finalize;
    var first := After(d, u, env, 0);
    assert After(d, u, env, 1) == Finalize(first, u, env(0)).1;
    if Unpaid(After(d, u, env, 1)) {
      UnpaidMeansFailed(first, u, env(0));
      assert !Continues(Outcomes(d, u, env), 1);
      assert k == 1;
    } else {
      PaidForGood(d, u, env, k);
    }
  }

  /** Whatever the environment does, a whole run of the retry loop against a
      freshly prepared upload is safe, and stores against the payment its first
      call names, whatever the later ones name. */
  lemma RunIsSafe(d: Daemon, u: Upload, env: Environment, k: nat)
    requires Fresh(d, u) && StopsAt(Outcomes(d, u, env), k)
    ensures Safe(d, u, After(d, u, env, k), Verdict(Outcomes(d, u, env), k), k, env(0).request)
  {
    hide Finalize, After, StopsAt, Reports, PaymentOf;
    var s := Outcomes(d, u, env);
    assert k >= 1 && !Continues(s, k) by { StopsMeans(s, k); }
    FirstPaymentStays(d, u, env, k);
    RunKeeps(d, u, env, k);
    OutcomeMeans(d, u, env, k - 1);
  }

  /** finalize_with_retry run against the daemon. */
  method RetryUpload(d: Daemon, u: Upload, env: Environment) returns (final: Final, end: Daemon, calls: nat)
    requires Fresh(d, u)
    ensures 1 <= calls <= MAX_ATTEMPTS && end == After(d, u, env, calls)
    ensures Safe(d, u, end, final, calls, env(0).request)
  {
    hide Finalize, Safe, Fresh, After, Outcomes;
    var slept;
    final, calls, slept := FinalizeWithRetry(Outcomes(d, u, env));
    RunIsSafe(d, u, env, calls);
    end := After(d, u, env, calls);
  }

  lemma StopsMeans(s: Script, k: nat)
    requires StopsAt(s, k)
    ensures k >= 1 && !Continues(s, k)
  {}

  lemma StoppedLater(s: Script, k: nat)
    requires StopsAt(s, k) && k > 1
    ensures Continues(s, k - 1)
  {}

  /** Every retry but the first follows a call that stored at least one more
      chunk of the upload. */
  lemma RetryFollowsProgress(d: Daemon, u: Upload, env: Environment, k: nat, j: nat)
    requires Fresh(d, u) && StopsAt(Outcomes(d, u, env), k) && 1 <= j && j + 1 < k
    ensures exists c :: c in u.chunks && c in After(d, u, env, j + 1).stored && c !in After(d, u, env, j).stored
  {
    hide Finalize, After, Invariant, Outcomes, StopsAt;
    var s := Outcomes(d, u, env);
    RetriesFall(s, k, j - 1, j);
    OutcomeMeans(d, u, env, j - 1);
    OutcomeMeans(d, u, env, j);
    StoredGrows(d, u, env, j, j + 1);
    var before, after := u.chunks - After(d, u, env, j).stored, u.chunks - After(d, u, env, j + 1).stored;
    NewlyStored(before, after);
    var c :| c in before && c !in after;
  }

  lemma NewlyStored(before: set<ChunkId>, after: set<ChunkId>)
    requires after <= before && |after| < |before|
    ensures exists c :: c in before && c !in after
  {
    assert before == after + (before - after);
    assert |before - after| > 0;
    var c :| c in before - after;
  }

  /** Nothing goes wrong around the call but chunks missing their quorum. */
  ghost predicate Intact(e: Event) { !e.expires && e.core.Runs? && !e.dataMapFails && e.delivery.Arrives? }

  ghost predicate Progresses(d: Daemon, u: Upload, env: Environment, n: nat) {
    exists c :: c in env(n).reached && c in u.chunks - After(d, u, env, n).stored
  }

  /** An intact environment that keeps making progress gets the upload done:
      when no session expires, nothing fails, and every call that finds chunks
      unstored stores at least one, the loop returns exactly when five calls
      are enough to store every chunk. */
  lemma ProgressReturns(d: Daemon, u: Upload, env: Environment, k: nat)
    requires Fresh(d, u) && u.accepts(env(0).request) && StopsAt(Outcomes(d, u, env), k)
    requires forall n :: 0 <= n < MAX_ATTEMPTS ==> Intact(env(n))
    requires forall n :: 0 <= n < MAX_ATTEMPTS && !(u.chunks <= After(d, u, env, n).stored) ==> Progresses(d, u, env, n)
    ensures Verdict(Outcomes(d, u, env), k).Returned? <==> u.chunks <= After(d, u, env, MAX_ATTEMPTS).stored
  {
    hide Finalize, After, Invariant, StopsAt, Outcomes, Fresh, Progresses;
    var s := Outcomes(d, u, env);
    StopsMeans(s, k);
    ReturnsIffSuccess(s, k);
    PendingUntilDone(d, u, env, k);
    OutcomeMeans(d, u, env, k - 1);
    if k > 1 { PaidAfterFirst(d, u, env, k); }
    IntactOutcome(d, u, env, k - 1);
    if s(k - 1).Done? {
      StoredGrows(d, u, env, k, MAX_ATTEMPTS);
    } else if k < MAX_ATTEMPTS {
      NeverStuck(d, u, env, k);
    } else {
      var end := After(d, u, env, k).stored;
      assert u.chunks <= end ==> u.chunks - end == {};
    }
  }

  lemma PaidAfterFirst(d: Daemon, u: Upload, env: Environment, k: nat)
    requires StopsAt(Outcomes(d, u, env), k) && k > 1
    ensures !Unpaid(After(d, u, env, k - 1))
  {
    hide Finalize;
    var first := After(d, u, env, 0);
    assert Continues(Outcomes(d, u, env), 1);
    if Unpaid(After(d, u, env, 1)) {
      UnpaidMeansFailed(first, u, env(0));
    } else {
      PaidForGood(d, u, env, k - 1);
    }
  }

  /** While the loop goes on, the session is still pending. */
  lemma PendingUntilDone(d: Daemon, u: Upload, env: Environment, k: nat)
    requires Fresh(d, u) && StopsAt(Outcomes(d, u, env), k)
    ensures After(d, u, env, k - 1).session.Some?
  {
    hide Finalize;
    if k > 1 {
      assert Continues(Outcomes(d, u, env), k - 1);
      OutcomeMeans(d, u, env, k - 2);
    }
  }

  /** An intact call on a pending, validly paid upload succeeds or is short. */
  lemma IntactOutcome(d: Daemon, u: Upload, env: Environment, n: nat)
    requires Unpaid(After(d, u, env, n)) ==> u.accepts(env(n).request)
    requires Intact(env(n)) && After(d, u, env, n).session.Some?
    ensures var o := Outcomes(d, u, env)(n); o.Done? || RetryablePartial(o)
  {}

  lemma NothingStored(chunks: set<ChunkId>, before: set<ChunkId>, after: set<ChunkId>)
    requires before <= after && |chunks - after| >= |chunks - before| && |chunks - before| > 0
    ensures chunks - after == chunks - before && !(chunks <= before)
  {
    SubsetSize(chunks - after, chunks - before);
    assert chunks <= before ==> chunks - before == {};
  }

  /** With progress at every call, the stuck rule never fires before the cap. */
  lemma NeverStuck(d: Daemon, u: Upload, env: Environment, k: nat)
    requires Fresh(d, u) && StopsAt(Outcomes(d, u, env), k) && k < MAX_ATTEMPTS
    requires Outcomes(d, u, env)(k - 1).Short? ==> RetryablePartial(Outcomes(d, u, env)(k - 1))
    requires !(u.chunks <= After(d, u, env, k - 1).stored) ==> Progresses(d, u, env, k - 1)
    ensures !Outcomes(d, u, env)(k - 1).Short?
  {
    hide Finalize, After, Invariant, StopsAt, Outcomes, Fresh;
    var s := Outcomes(d, u, env);
    StopsMeans(s, k);
    OutcomeMeans(d, u, env, k - 1);
    if s(k - 1).Short? {
      StopsByStuckRule(s, k);
      assert RetryablePartial(s(k - 2)) by { assert Continues(s, k - 1) by { StoppedLater(s, k); } }
      OutcomeMeans(d, u, env, k - 2);
      StoredGrows(d, u, env, k - 1, k);
      NothingStored(u.chunks, After(d, u, env, k - 1).stored, After(d, u, env, k).stored);
      var c :| c in env(k - 1).reached && c in u.chunks - After(d, u, env, k - 1).stored;
      ReachedIsStored(d, u, env, k - 1, c);
    }
  }

  /** A reached chunk of a short call is stored by it. */
  lemma ReachedIsStored(d: Daemon, u: Upload, env: Environment, n: nat, c: ChunkId)
    requires Fresh(d, u) && Outcomes(d, u, env)(n).Short?
    requires c in env(n).reached && c in u.chunks - After(d, u, env, n).stored
    ensures c in After(d, u, env, n + 1).stored
  {
    hide After;
    RunKeeps(d, u, env, n);
    AfterStep(d, u, env, n);
  }

  lemma AfterStep(d: Daemon, u: Upload, env: Environment, n: nat)
    ensures After(d, u, env, n + 1) == Finalize(After(d, u, env, n), u, env(n)).1
  {}
}
