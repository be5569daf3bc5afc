/** The promises of the email outbox, over every run. */
module OutboxTheorems {
  import opened Prelude
  import opened Ordering
  import opened OutboxModel
  import opened OutboxTransactions
  import opened OutboxInvariant
  import opened OutboxRuns

  // ---------------------------------------------------------------- at most one capture

  predicate HasCapture(s: Db, id: Id) { id in s.intents && s.intents[id].capture.Some? }

  predicate Captures(s: Db, t: Db, id: Id) { !HasCapture(s, id) && HasCapture(t, id) }

  predicate SameCaptures(s: Db, t: Db) {
    t.intents.Keys == s.intents.Keys && forall id | id in s.intents :: t.intents[id].capture == s.intents[id].capture
  }

  lemma TurnCapturesNothing(s: Db, now: Time, lease: Id)
    ensures SameCaptures(s, ClaimTurn(s, now, lease).0)
  {
    hide RowTurn; hide First;
    var s1 := s.(clock := now);
    if EligibleIds(s1, now) != {} {
      RowCapturesNothing(s1, First(EligibleIds(s1, now), ClaimRank(s1.intents)), now, lease);
    }
  }

  lemma RowCapturesNothing(s: Db, id: Id, now: Time, lease: Id)
    requires id in s.intents
    ensures SameCaptures(s, RowTurn(s, id, now, lease).0)
  {
    hide Judge; hide Leased; hide Full; hide Charge;
    LeasedCapture(s.cfg, s.intents[id], lease, now);
  }

  lemma {:induction false} ClaimCapturesNothing(s: Db, readings: nat -> Time, k: nat, lease: Id)
    ensures SameCaptures(s, ClaimFrom(s, readings, k, lease).0)
    decreases |OpenIds(s)|
  {
    hide ClaimTurn; hide ClaimFrom; hide OpenIds;
    ClaimTurns(s, readings, k, lease);
    TurnShrinks(s, readings(k), lease);
    TurnCapturesNothing(s, readings(k), lease);
    if ClaimTurn(s, readings(k), lease).1.None? {
      ClaimCapturesNothing(ClaimTurn(s, readings(k), lease).0, readings, k + 1, lease);
    }
  }

  lemma LeasedCapture(cfg: Settings, i: Intent, lease: Id, now: Time)
    ensures Leased(cfg, i, lease, now).capture == i.capture
  {
  }

  /** Only a delivery under a running lease, to a recipient who may be written to, creates a capture. */
  lemma OnlyDeliveryCaptures(s: Db, a: Action, id: Id)
    requires Inv(s) && Possible(s, a) && Captures(s, Apply(s, a), id)
    ensures a.DoDeliver? && a.id == id && id in s.intents && HoldsLease(s.intents[id], a.lease, a.now)
    ensures Allowed(s, s.intents[id].row, a.around, a.now) == Qualifies
    ensures var row := s.intents[id].row;
            && !a.around.barred && row.erasedAt.None? && row.recipient in s.addresses
            && (!row.verifies ==> s.addresses[row.recipient].verified == row.payload.to != "" && a.around.audience == Qualifies)
    ensures s.past.captures[id] == 0 && Apply(s, a).past.captures[id] == 1
  {
    hide Inv; hide Possible; hide Deliver; hide HoldsLease; hide Allowed; hide Claim; hide Recover; hide Erase;
    hide RequestVerification; hide VerifyAddress; hide RequestMessage; hide DropAttempts; hide DropCaptures;
    hide DropBuckets;
    if a.DoDeliver? {
      DeliveryCaptures(s, a.id, a.lease, a.now, a.later, a.around, id);
      Receives(s, s.intents[id].row, a.around, a.now);
    } else {
      OthersCaptureNothing(s, a, id);
    }
  }

  /** Who may be written to. */
  lemma Receives(s: Db, row: Row, e: Surroundings, now: Time)
    requires Allowed(s, row, e, now) == Qualifies
    ensures !e.barred && row.erasedAt.None? && row.recipient in s.addresses
    ensures !row.verifies ==> s.addresses[row.recipient].verified == row.payload.to != "" && e.audience == Qualifies
  {
  }

  lemma DeliveryCaptures(s: Db, id': Id, lease: Id, now: Time, later: Time, e: Surroundings, id: Id)
    requires Inv(s) && Captures(s, Deliver(s, id', lease, now, later, e).0, id)
    ensures id' == id && id in s.intents && HoldsLease(s.intents[id], lease, now)
    ensures Allowed(s, s.intents[id].row, e, now) == Qualifies
    ensures s.past.captures[id] == 0 && Deliver(s, id', lease, now, later, e).0.past.captures[id] == 1
  {
    hide Inv; hide Allowed; hide Highest; hide IntentOk;
    AllowedNow(s, id, e, now);
    if id in s.intents {
      IntentOf(s, id);
      if s.intents[id].row.lease.Some? { LeasedLedger(s.cfg, id, s.intents[id], s.past); }
    }
  }

  lemma AllowedNow(s: Db, id: Id, e: Surroundings, now: Time)
    ensures id in s.intents ==> Allowed(s.(clock := now), s.intents[id].row, e, now) == Allowed(s, s.intents[id].row, e, now)
  {
  }

  lemma OthersCaptureNothing(s: Db, a: Action, id: Id)
    requires !a.DoDeliver?
    ensures !Captures(s, Apply(s, a), id)
  {
    hide Deliver; hide ClaimFrom; hide RecoverIntent; hide EraseIntent; hide ChallengeDead; hide Aged;
    hide OldAttempt; hide OldCapture; hide RequestVerification; hide TokenProves; hide Highest;
    match a
    case DoClaim(readings, lease) => ClaimCapturesNothing(s, readings, 0, lease);
    case DoRecover(id', caps, answer, now) =>
      if id' in s.intents { RecoverCaptures(s.cfg, s.intents[id'], caps, answer, now); }
    case DoErase(id', cutoff, now) =>
      if id' in s.intents { EraseCaptures(s.intents[id'], cutoff, now); }
    case DoRequestVerification(q, now) => RequestCapturesNothing(s, q, now, id);
    case _ =>
  }

  lemma RequestCapturesNothing(s: Db, q: VerificationRequest, now: Time, id: Id)
    ensures !Captures(s, RequestVerification(s, q, now).0, id)
  {
    hide Challenged; hide TooSoon; hide Highest;
  }

  lemma RecoverCaptures(cfg: Settings, i: Intent, caps: Capabilities, answer: Lookup, now: Time)
    ensures RecoverIntent(cfg, i, caps, answer, now).Some? ==> RecoverIntent(cfg, i, caps, answer, now).value.capture == i.capture
  {
  }

  lemma EraseCaptures(i: Intent, cutoff: Time, now: Time)
    ensures EraseIntent(i, cutoff, now).capture.Some? ==> i.capture.Some?
  {
  }

  /** At-most-once: over a whole run an intent's capture is created by at most one transaction. */
  lemma AtMostOneCapture(run: seq<Db>, id: Id, i: nat, j: nat)
    requires FromEmpty(run) && i < j < |run| - 1
    requires Captures(run[i], run[i + 1], id)
    ensures !Captures(run[j], run[j + 1], id)
  {
    hide Inv; hide Kept; hide Possible; hide Apply; hide Captures; hide FromEmpty;
    ReachableOk(run, i); ReachableOk(run, j); ReachableOk(run, i + 1);
    StepsOf(run, i); StepsOf(run, j);
    var a :| Possible(run[i], a) && run[i + 1] == Apply(run[i], a);
    OnlyDeliveryCaptures(run[i], a, id);
    RunKeeps(run, i + 1, j);
    KeptCaptures(run[i + 1], run[j], id);
    var b :| Possible(run[j], b) && run[j + 1] == Apply(run[j], b);
    if Captures(run[j], run[j + 1], id) { OnlyDeliveryCaptures(run[j], b, id); }
  }

  lemma StepsOf(run: seq<Db>, i: nat)
    requires FromEmpty(run) && i < |run| - 1
    ensures IsRun(run) && Step(run[i], run[i + 1])
  {
  }

  lemma KeptCaptures(s: Db, t: Db, id: Id)
    requires Kept(s, t)
    ensures s.past.captures[id] <= t.past.captures[id]
  {
  }

  /** While a capture exists, its intent is accepted and it holds the very message that was enqueued;
      while an intent is not accepted, nothing of it was ever captured. */
  lemma CaptureMeansAccepted(run: seq<Db>, i: nat, id: Id)
    requires FromEmpty(run) && i < |run| && id in run[i].intents
    ensures var x := run[i].intents[id];
            && (x.capture.Some? ==> x.row.state == ProviderAccepted && x.capture.value.digest == x.row.deliveryDigest)
            && (x.row.state != ProviderAccepted ==> run[i].past.captures[id] == 0)
            && run[i].past.captures[id] <= 1
  {
    hide FromEmpty;
    ReachableOk(run, i);
    assert IntentOk(run[i].cfg, id, run[i].intents[id], run[i].past);
  }

  /** A batch is captured all or nothing, each message under its own intent with its own digest; what was
      captured before stays as it was, and repeating the batch is a successful replay without effect. */
  lemma {:induction false} BatchIsIdempotent(intents: map<Id, Intent>, batch: seq<Outgoing>, stamp: Time, again: Time)
    requires CaptureAll(intents, batch, stamp).Some?
    ensures var t := CaptureAll(intents, batch, stamp).value;
            && t.Keys == intents.Keys
            && (forall id | id in intents :: t[id].row == intents[id].row && t[id].attempts == intents[id].attempts)
            && (forall id | id in intents && intents[id].capture.Some? :: t[id] == intents[id])
            && (forall id | id in intents && t[id] != intents[id] :: exists k :: 0 <= k < |batch| && batch[k].intent == Some(id))
            && (forall k | 0 <= k < |batch| ::
                  batch[k].intent.Some? && batch[k].intent.value in t && t[batch[k].intent.value].capture.Some?
                  && t[batch[k].intent.value].capture.value.digest == MessageDigest(batch[k].message))
            && CaptureAll(t, batch, again) == Some(t)
  {
    if batch != [] {
      var id := batch[0].intent.value;
      var i := CaptureMessage(intents[id], batch[0].message, stamp).value;
      var mid := intents[id := i];
      BatchIsIdempotent(mid, batch[1..], stamp, again);
      var t := CaptureAll(mid, batch[1..], stamp).value;
      assert t[id] == i;
      forall j | j in intents && t[j] != intents[j] ensures exists k :: 0 <= k < |batch| && batch[k].intent == Some(j) {
        if j != id {
          var k :| 0 <= k < |batch[1..]| && batch[1..][k].intent == Some(j);
          assert batch[k + 1].intent == Some(j);
        } else { assert batch[0].intent == Some(j); }
      }
      assert t[id := i] == t;
      assert CaptureMessage(t[id], batch[0].message, again) == Some(t[id]);
    }
  }

  // ---------------------------------------------------------------- leases and attempts

  ghost predicate Carries(s: Db, id: Id, n: nat, lease: Id) {
    id in s.intents && CarriedBy(s.intents[id], lease, n)
  }

  /** A held lease: the row is queued, and one attempt in the whole table carries the lease — this
      intent's highest-numbered one, claimed and not started. */
  lemma HeldLease(run: seq<Db>, i: nat, id: Id)
    requires FromEmpty(run) && i < |run| && id in run[i].intents && run[i].intents[id].row.lease.Some?
    ensures var x := run[i].intents[id]; var lease := x.row.lease.value;
            && x.row.state == Queued && x.row.leaseUntil.Some?
            && Latest(x) == Some(x.row.attemptCount)
            && x.attempts[x.row.attemptCount] == Attempt(lease, Claimed, None, NoCode)
            && (forall j, n | Carries(run[i], j, n, lease) :: j == id && n == x.row.attemptCount)
  {
    hide FromEmpty;
    ReachableOk(run, i);
    var s := run[i];
    var x := s.intents[id];
    var lease := x.row.lease.value;
    IntentOf(s, id);
    LatestIsCount(x);
    forall j, n | Carries(s, j, n, lease) ensures j == id && n == x.row.attemptCount {
      IntentOf(s, j);
      assert s.past.slots[lease] == LeaseOf(j, n) == LeaseOf(id, x.row.attemptCount);
    }
  }

  /** No committed state shows a started attempt, and a claimed attempt is one whose row holds its lease. */
  lemma NoStartedAttempt(run: seq<Db>, i: nat, id: Id, n: nat)
    requires FromEmpty(run) && i < |run| && id in run[i].intents && n in run[i].intents[id].attempts
    ensures var x := run[i].intents[id];
            x.attempts[n].phase != Started && (x.attempts[n].phase == Claimed <==> x.row.lease == Some(x.attempts[n].lease))
  {
    hide FromEmpty;
    ReachableOk(run, i);
    var x := run[i].intents[id];
    IntentOf(run[i], id);
    assert AttemptOk(x, n);
    if x.row.lease == Some(x.attempts[n].lease) {
      CarrierIsNewest(run[i].cfg, id, x, run[i].past);
      assert CarriedBy(x, x.row.lease.value, n);
    }
  }

  /** What a delivery under a running lease to a recipient who may be written to comes to. It is accepted exactly
      when the backend raises nothing: no earlier capture can stand in its way. Whatever it raises, only the
      outcome is left of the sending: one spent attempt, no capture, and a retry only with budget and not yet. */
  lemma DeliveryOutcome(run: seq<Db>, i: nat, id: Id, lease: Id, now: Time, later: Time, e: Surroundings)
    requires FromEmpty(run) && i < |run| && run[i].clock <= now <= later && id in run[i].intents
    requires HoldsLease(run[i].intents[id], lease, now) && Allowed(run[i], run[i].intents[id].row, e, now) == Qualifies
    ensures var (t, r) := Deliver(run[i], id, lease, now, later, e);
            var x := run[i].intents[id];
            && id in t.intents && r == Some(e.fault == NoFault)
            && var y := t.intents[id];
            && (y.capture.Some? <==> e.fault == NoFault)
            && y.row.state == (match e.fault
                               case NoFault => ProviderAccepted
                               case RaisesSuppressed => Suppressed
                               case RaisesNotAccepted => if x.row.attemptCount < run[i].cfg.maxAttempts then Queued else Failed
                               case RaisesOther => AcceptanceUncertain)
            && y.row.lease.None? && y.row.attemptCount == x.row.attemptCount && y.row.payload == x.row.payload
            && y.attempts.Keys == x.attempts.Keys && y.row.readyAt == later + run[i].cfg.retrySeconds
            && t == run[i].(clock := later, intents := run[i].intents[id := y], past := t.past)
            && t.past.sends == run[i].past.sends + multiset{id}
  {
    hide FromEmpty; hide Inv; hide IntentOk; hide Highest; hide Allowed;
    ReachableOk(run, i);
    IntentOf(run[i], id);
    var x := run[i].intents[id];
    LeasedLedger(run[i].cfg, id, x, run[i].past);
    CarrierFound(run[i].cfg, id, x, run[i].past);
    CarrierIsNewest(run[i].cfg, id, x, run[i].past);
    AllowedNow(run[i], id, e, now);
  }

  // ---------------------------------------------------------------- attempt budget

  /** Attempts of an unfinished intent are numbered 1..attemptCount without a gap; every one of them
      but a pending newest one reached the backend exactly once; the maximum is never exceeded. */
  lemma BudgetConserved(run: seq<Db>, i: nat, id: Id)
    requires FromEmpty(run) && i < |run| && id in run[i].intents
    ensures var x := run[i].intents[id]; var sends := run[i].past.sends[id];
            && sends <= x.row.attemptCount <= run[i].cfg.maxAttempts
            && (forall n | n in x.attempts :: 1 <= n <= x.row.attemptCount)
            && (!Terminal(x.row.state) ==>
                  && (forall n | 1 <= n <= x.row.attemptCount :: n in x.attempts)
                  && sends == x.row.attemptCount - if Pending(x) then 1 else 0)
  {
    hide FromEmpty;
    ReachableOk(run, i);
    var x := run[i].intents[id];
    IntentOf(run[i], id);
    forall n | n in x.attempts ensures 1 <= n <= x.row.attemptCount { assert AttemptOk(x, n); }
  }

  /** A row waits for a worker. */
  predicate Waits(row: Row, now: Time) { row.state in {Requested, Queued} && row.lease == None && row.readyAt <= now }

  /** Essential mail first, then the older row, then the smaller key. */
  predicate GoesFirst(x: Row, id: Id, y: Row, j: Id) {
    (x.category == Essential && y.category == Notice)
    || (x.category == y.category && (x.createdAt < y.createdAt || (x.createdAt == y.createdAt && id < j)))
  }

  /** Where a lease stood before the claim that took it over, and what the claim makes of the row. */
  ghost predicate Took(s: Db, t: Db, id: Id, lease: Id) {
    && id in s.intents && id in t.intents
    && var i := s.intents[id]; var j := t.intents[id];
    && Waits(i.row, t.clock)
    && (i.row.challenge.Some? ==> ChallengeLive(s, i.row, t.clock))
    && j.row == i.row.(state := Queued, lease := Some(lease), leaseUntil := Some(t.clock + s.cfg.leaseSeconds),
                       attemptCount := i.row.attemptCount + if Pending(i) then 0 else 1)
    && j.attempts == i.attempts[j.row.attemptCount := Attempt(lease, Claimed, None, NoCode)]
    && j.capture == i.capture
  }

  /** Rows a claim passed over: untouched, or verification rows whose challenge had ended. */
  ghost predicate PassedOver(s: Db, t: Db, id: Id) {
    && id in s.intents && id in t.intents
    && (t.intents[id] == s.intents[id]
        || exists now :: now <= t.clock && Waits(s.intents[id].row, now) && s.intents[id].row.challenge.Some?
                         && !ChallengeLive(s, s.intents[id].row, now)
                         && t.intents[id] == Close(s.intents[id], Suppressed, ChallengeEnded, now))
  }

  /** Why a claim found nothing: no row waits, the day's capacity is used up, or the notice share is used up and only
      notices wait. */
  ghost predicate HonestNothing(t: Db) {
    var b := BucketOf(t, Day(t.clock));
    forall id | id in t.intents && Waits(t.intents[id].row, t.clock) ::
      b.total >= t.cfg.capacity || (b.notice >= t.cfg.capacity - t.cfg.reserve && t.intents[id].row.category == Notice)
  }

  lemma WaitingIds(t: Db, now: Time)
    ensures forall id :: id in EligibleIds(t, now) <==> id in t.intents && Waits(t.intents[id].row, now)
  {
  }

  /** The complete effect of a claim on the tables. */
  ghost predicate ClaimEffect(s: Db, t: Db, r: ClaimResult, lease: Id) {
    var day := Day(t.clock);
    && t.addresses == s.addresses && t.cfg == s.cfg
    && match r
       case Work(id, l) =>
         && l == lease && Took(s, t, id, lease)
         && (forall j | j in s.intents && j != id :: PassedOver(s, t, j))
         && (forall j | j in t.intents && Waits(t.intents[j].row, t.clock) ::
               GoesFirst(s.intents[id].row, id, t.intents[j].row, j))
         && t.buckets == s.buckets[day := Charge(BucketOf(s, day), s.intents[id].row.category)]
         && t.past.claims == s.past.claims + multiset{ClaimMade(day, s.intents[id].row.category)}
         && BucketOf(s, day).total < s.cfg.capacity
         && (s.intents[id].row.category == Notice ==> BucketOf(s, day).notice < s.cfg.capacity - s.cfg.reserve)
       case NoWork =>
         && (forall j | j in s.intents :: PassedOver(s, t, j))
         && (t.buckets == s.buckets || t.buckets == s.buckets[day := BucketOf(s, day)])
         && t.past == s.past && HonestNothing(t)
       case Misconfigured => true
  }

  /** With the settings fixed, an open row always has budget: the exhaustion branch of `claim` is dead. */
  lemma NeverExhausted(s: Db, id: Id, now: Time)
    requires Inv(s) && id in s.intents && Open(s.intents[id])
    ensures Judge(s, s.intents[id], now) != BudgetSpent
  {
    var i := s.intents[id];
    IntentOf(s, id);
    LatestIsCount(i);
    if i.row.attemptCount >= 1 { assert AttemptOk(i, i.row.attemptCount); }
  }

  /** Resuming is exactly having an unsent newest attempt. */
  lemma ResumableIsPending(s: Db, id: Id)
    requires Inv(s) && id in s.intents && Open(s.intents[id])
    ensures Resumable(s.intents[id]) <==> Pending(s.intents[id])
    ensures Resumable(s.intents[id]) ==> Latest(s.intents[id]) == Some(s.intents[id].row.attemptCount)
  {
    var i := s.intents[id];
    IntentOf(s, id);
    LatestIsCount(i);
    if i.row.attemptCount >= 1 { assert AttemptOk(i, i.row.attemptCount); }
  }

  lemma GrantEffect(s: Db, id: Id, lease: Id)
    requires Inv(s) && id in EligibleIds(s, s.clock) && Judge(s, s.intents[id], s.clock) == Grant
    requires IsFirst(EligibleIds(s, s.clock), ClaimRank(s.intents), id)
    ensures ClaimEffect(s, GrantClaim(s, id, lease, s.clock), Work(id, lease), lease)
  {
    hide Inv; hide Took; hide ChallengeLive; hide Leased; hide GoesFirst; hide IsFirst; hide EligibleIds; hide Waits;
    GrantTook(s, id, lease);
    GrantOrder(s, id, lease);
  }

  lemma GrantTook(s: Db, id: Id, lease: Id)
    requires Inv(s) && id in EligibleIds(s, s.clock) && Judge(s, s.intents[id], s.clock) == Grant
    ensures Took(s, GrantClaim(s, id, lease, s.clock), id, lease)
  {
    hide Inv; hide Resumable; hide Pending; hide ChallengeLive;
    ResumableIsPending(s, id);
  }

  lemma GrantOrder(s: Db, id: Id, lease: Id)
    requires IsFirst(EligibleIds(s, s.clock), ClaimRank(s.intents), id)
    ensures var t := GrantClaim(s, id, lease, s.clock);
            forall j | j in t.intents && Waits(t.intents[j].row, t.clock) :: GoesFirst(s.intents[id].row, id, t.intents[j].row, j)
  {
    var t := GrantClaim(s, id, lease, s.clock);
    forall j | j in t.intents && Waits(t.intents[j].row, t.clock) ensures GoesFirst(s.intents[id].row, id, t.intents[j].row, j) {
      assert j != id && j in EligibleIds(s, s.clock);
      assert Before(ClaimRank(s.intents)(id), ClaimRank(s.intents)(j));
    }
  }

  lemma FullEffect(s: Db, id: Id, lease: Id)
    requires id in EligibleIds(s, s.clock) && Judge(s, s.intents[id], s.clock) == NoCapacity
    requires IsFirst(EligibleIds(s, s.clock), ClaimRank(s.intents), id)
    ensures ClaimEffect(s, s.(buckets := s.buckets[Day(s.clock) := BucketOf(s, Day(s.clock))]), NoWork, lease)
  {
    var t := s.(buckets := s.buckets[Day(s.clock) := BucketOf(s, Day(s.clock))]);
    assert EligibleIds(t, t.clock) == EligibleIds(s, s.clock);
    forall j | j in EligibleIds(t, t.clock)
      ensures s.intents[id].row.category == Notice ==> t.intents[j].row.category == Notice
    {
      assert Before(ClaimRank(s.intents)(id), ClaimRank(s.intents)(j));
    }
  }

  /** An effect seen from just before a closing is the same effect seen from just after it. */
  lemma EffectAfterClosing(s: Db, id: Id, t: Db, r: ClaimResult, lease: Id)
    requires id in EligibleIds(s, s.clock) && Judge(s, s.intents[id], s.clock) == ChallengeOver && s.clock <= t.clock
    requires ClaimEffect(Put(s, id, Close(s.intents[id], Suppressed, ChallengeEnded, s.clock)), t, r, lease)
    ensures ClaimEffect(s, t, r, lease)
  {
    var s1 := Put(s, id, Close(s.intents[id], Suppressed, ChallengeEnded, s.clock));
    hide PassedOver; hide Judge; hide Took; hide HonestNothing; hide ChallengeLive;
    forall j | j in s.intents && PassedOver(s1, t, j) ensures PassedOver(s, t, j) {
      PassedOverEarlier(s, s1, t, id, j);
    }
    if r.Work? { TookEarlier(s, s1, t, id, r.intent, lease); }
  }

  lemma PassedOverEarlier(s: Db, s1: Db, t: Db, id: Id, j: Id)
    requires id in EligibleIds(s, s.clock) && Judge(s, s.intents[id], s.clock) == ChallengeOver && s.clock <= t.clock
    requires s1 == Put(s, id, Close(s.intents[id], Suppressed, ChallengeEnded, s.clock))
    requires j in s.intents && PassedOver(s1, t, j)
    ensures PassedOver(s, t, j)
  {
    assert !Open(s1.intents[id]);
    if j == id {
      assert t.intents[id] == s1.intents[id];
    } else if t.intents[j] != s1.intents[j] {
      var now :| now <= t.clock && Waits(s1.intents[j].row, now) && s1.intents[j].row.challenge.Some?
                 && !ChallengeLive(s1, s1.intents[j].row, now)
                 && t.intents[j] == Close(s1.intents[j], Suppressed, ChallengeEnded, now);
      assert !ChallengeLive(s, s.intents[j].row, now);
    }
  }

  lemma TookEarlier(s: Db, s1: Db, t: Db, id: Id, j: Id, lease: Id)
    requires id in s.intents && s1 == Put(s, id, Close(s.intents[id], Suppressed, ChallengeEnded, s.clock))
    requires Took(s1, t, j, lease)
    ensures j != id && Took(s, t, j, lease) && ClaimRank(s.intents)(j) == ClaimRank(s1.intents)(j)
  {
    assert !Open(s1.intents[id]);
  }

  lemma {:induction false} ClaimFromEffect(s: Db, readings: nat -> Time, k: nat, lease: Id)
    requires Inv(s) && lease !in s.past.slots && s.clock <= readings(k)
    requires forall a: nat, b: nat | a <= b :: readings(a) <= readings(b)
    ensures var (t, r) := ClaimFrom(s, readings, k, lease);
            ClaimEffect(s, t, r, lease) && s.clock <= t.clock
            && (r == Misconfigured ==> s.cfg.reserve > s.cfg.capacity)
    decreases |OpenIds(s)|
  {
    hide Inv; hide Kept; hide Judge; hide ClaimEffect; hide Open;
    var now := readings(k);
    var s0 := s.(clock := now);
    TickKeeps(s, now);
    var ids := EligibleIds(s0, now);
    var (t, r) := ClaimFrom(s, readings, k, lease);
    if ids == {} {
      NothingEligible(s0, lease);
    } else {
      var id := First(ids, ClaimRank(s0.intents));
      var i := s0.intents[id];
      NeverExhausted(s0, id, now);
      match Judge(s0, i, now)
      case ChallengeOver =>
        var s1 := Put(s0, id, Close(i, Suppressed, ChallengeEnded, now));
        CloseKeeps(s0, id, Suppressed, ChallengeEnded, now);
        assert s1.(clock := now) == s1;
        CloseShrinks(s0, id, Suppressed, ChallengeEnded, now);
        ClaimFromEffect(s1, readings, k + 1, lease);
        EffectAfterClosing(s0, id, t, r, lease);
      case ReserveTooLarge => Misconfiguration(s0, i, now, lease);
      case NoCapacity => FullEffect(s0, id, lease);
      case Grant => GrantEffect(s0, id, lease);
    }
    EffectFromEarlier(s, s0, t, r, lease);
  }

  lemma NothingEligible(s: Db, lease: Id)
    requires EligibleIds(s, s.clock) == {}
    ensures ClaimEffect(s, s, NoWork, lease)
  {
    WaitingIds(s, s.clock);
    assert forall id | id in s.intents :: !Waits(s.intents[id].row, s.clock);
  }

  lemma Misconfiguration(s: Db, i: Intent, now: Time, lease: Id)
    requires Judge(s, i, now) == ReserveTooLarge
    ensures s.cfg.reserve > s.cfg.capacity && ClaimEffect(s, s, Misconfigured, lease)
  {
  }

  lemma EffectFromEarlier(s: Db, s0: Db, t: Db, r: ClaimResult, lease: Id)
    requires s0 == s.(clock := s0.clock) && ClaimEffect(s0, t, r, lease)
    ensures ClaimEffect(s, t, r, lease)
  {
    hide ChallengeLive;
    assert forall row, now :: ChallengeLive(s, row, now) == ChallengeLive(s0, row, now) by { SameAddresses(s, s0); }
    forall j | j in s.intents && PassedOver(s0, t, j) ensures PassedOver(s, t, j) {
      assert t.intents[j] == s.intents[j]
        || exists now :: now <= t.clock && Waits(s.intents[j].row, now) && s.intents[j].row.challenge.Some?
                         && !ChallengeLive(s0, s0.intents[j].row, now)
                         && t.intents[j] == Close(s.intents[j], Suppressed, ChallengeEnded, now);
    }
    if r.Work? { assert ClaimRank(s.intents)(r.intent) == ClaimRank(s0.intents)(r.intent); }
  }

  lemma SameAddresses(s: Db, s0: Db)
    requires s0 == s.(clock := s0.clock)
    ensures forall row, now :: ChallengeLive(s, row, now) == ChallengeLive(s0, row, now)
  {
  }

  /** `claim`, completely: what it grants and to whom, which rows it closed on the way, when it charges
      capacity, why it finds nothing, and that a misconfigured reserve changes nothing. */
  lemma ClaimIsHonest(s: Db, readings: nat -> Time, lease: Id)
    requires Inv(s) && lease !in s.past.slots && Monotone(readings, s.clock)
    ensures var (t, r) := Claim(s, readings, lease);
            if r == Misconfigured then s.cfg.reserve > s.cfg.capacity && t == s.(clock := t.clock)
            else ClaimEffect(s, t, r, lease)
  {
    hide Inv; hide ClaimFrom; hide ClaimEffect;
    ClaimFromEffect(s, readings, 0, lease);
  }

  // ---------------------------------------------------------------- fencing

  /** A lease that was drawn once and is not held by an intent is never held by it again. */
  lemma {:induction false} LeaseNeverReturns(run: seq<Db>, i: nat, j: nat, id: Id, lease: Id)
    requires FromEmpty(run) && i <= j < |run| && lease in run[i].past.slots
    requires id in run[i].intents ==> run[i].intents[id].row.lease != Some(lease)
    ensures id in run[j].intents ==> run[j].intents[id].row.lease != Some(lease)
  {
    hide FromEmpty; hide Inv; hide Step;
    ReachableOk(run, i);
    RunOf(run);
    RunKeeps(run, i, j);
  }

  lemma RunOf(run: seq<Db>)
    requires FromEmpty(run)
    ensures IsRun(run)
  {
  }

  /** Fencing: once a lease is cleared or replaced, delivering under it changes nothing, ever after. */
  lemma StaleLeaseIsFenced(run: seq<Db>, i: nat, j: nat, id: Id, lease: Id, now: Time, later: Time, e: Surroundings)
    requires FromEmpty(run) && i <= j < |run| && lease in run[i].past.slots
    requires id in run[i].intents && run[i].intents[id].row.lease != Some(lease)
    ensures Deliver(run[j], id, lease, now, later, e) == (run[j].(clock := now), Some(false))
  {
    hide FromEmpty; hide Inv;
    LeaseNeverReturns(run, i, j, id, lease);
    ReachableOk(run, i);
    RunOf(run);
    RunKeeps(run, i, j);
  }

  /** Of two drawn, different leases for one intent one is dead: delivering under it changes nothing from now on,
      in any later state, whatever the other worker does. */
  lemma OneWorkerActs(run: seq<Db>, i: nat, id: Id, l1: Id, l2: Id)
    requires FromEmpty(run) && i < |run| && id in run[i].intents && l1 != l2
    requires l1 in run[i].past.slots && l2 in run[i].past.slots
    ensures DeadFrom(run, i, id, l1) || DeadFrom(run, i, id, l2)
  {
    hide FromEmpty; hide Deliver;
    var dead := if run[i].intents[id].row.lease == Some(l1) then l2 else l1;
    forall j: nat, now, later, e | i <= j < |run|
      ensures Deliver(run[j], id, dead, now, later, e) == (run[j].(clock := now), Some(false))
    {
      StaleLeaseIsFenced(run, i, j, id, dead, now, later, e);
    }
  }

  ghost predicate DeadFrom(run: seq<Db>, i: nat, id: Id, lease: Id) {
    forall j: nat, now, later, e | i <= j < |run| ::
      Deliver(run[j], id, lease, now, later, e) == (run[j].(clock := now), Some(false))
  }

  // ---------------------------------------------------------------- capacity

  /** On every day of every run: claims stay within the capacity and notice claims leave the reserve;
      today's counter is exactly the number of today's claims, so nothing has reset it. */
  lemma CapacityHolds(run: seq<Db>, i: nat, day: int)
    requires FromEmpty(run) && i < |run|
    ensures var s := run[i]; var e := ClaimsOn(s.past, day, Essential); var n := ClaimsOn(s.past, day, Notice);
            && e + n <= s.cfg.capacity
            && (n > 0 ==> n <= s.cfg.capacity - s.cfg.reserve)
            && (Day(s.clock) <= day ==> BucketOf(s, day) == Bucket(e + n, n))
            && (day in s.buckets ==> s.buckets[day] == Bucket(e + n, n))
  {
    hide FromEmpty; hide IntentsOk; hide AddressesOk;
    ReachableOk(run, i);
    assert day in run[i].buckets ==> BucketOk(run[i].buckets[day], run[i].past, day);
    assert ClaimsOn(run[i].past, day, Notice) > 0 ==> ClaimsOn(run[i].past, day, Notice) <= run[i].cfg.capacity - run[i].cfg.reserve;
  }

  /** While fewer than `reserve` essential claims were made on a day, essential work is not refused:
      a claim that finds nothing leaves no essential row waiting. */
  lemma EssentialIsNotStarved(run: seq<Db>, i: nat, readings: nat -> Time, lease: Id)
    requires FromEmpty(run) && i < |run| && lease !in run[i].past.slots && Monotone(readings, run[i].clock)
    requires run[i].cfg.reserve <= run[i].cfg.capacity
    ensures var (t, r) := Claim(run[i], readings, lease);
            r == NoWork && ClaimsOn(t.past, Day(t.clock), Essential) < t.cfg.reserve
            ==> forall id | id in t.intents && Waits(t.intents[id].row, t.clock) :: t.intents[id].row.category == Notice
  {
    hide FromEmpty; hide IntentsOk; hide AddressesOk; hide KeysOk; hide ClaimFrom; hide PassedOver; hide Took;
    hide Kept;
    ReachableOk(run, i);
    ClaimIsHonest(run[i], readings, lease);
    ClaimKeeps(run[i], readings, lease);
    var (t, r) := Claim(run[i], readings, lease);
    var day := Day(t.clock);
    if r == NoWork && ClaimsOn(t.past, day, Essential) < t.cfg.reserve {
      assert BucketOk(BucketOf(t, day), t.past, day);
      assert HonestNothing(t);
      assert ClaimsOn(t.past, day, Notice) <= t.cfg.capacity - t.cfg.reserve;
    }
  }

  // ---------------------------------------------------------------- recovery

  predicate IsUncertain(s: Db, id: Id) { id in s.intents && s.intents[id].row.state == AcceptanceUncertain }

  /** What may move an uncertain row: the adapter's own word, or an absence it is authoritative about. */
  predicate Conclusive(answer: Lookup, caps: Capabilities) {
    answer == Accepted || (answer == Absent && caps.authoritativeAbsence && caps.localCapture)
  }

  /** Uncertain rows are left exactly as uncertain as they were. */
  ghost predicate SameUncertain(s: Db, t: Db) {
    forall id: Id | IsUncertain(s, id) :: IsUncertain(t, id)
  }

  lemma TurnLeavesUncertain(s: Db, now: Time, lease: Id)
    ensures SameUncertain(s, ClaimTurn(s, now, lease).0)
  {
    hide RowTurn; hide First;
    var s1 := s.(clock := now);
    if EligibleIds(s1, now) != {} {
      RowLeavesUncertain(s1, First(EligibleIds(s1, now), ClaimRank(s1.intents)), now, lease);
    }
  }

  lemma RowLeavesUncertain(s: Db, id: Id, now: Time, lease: Id)
    requires id in s.intents && Open(s.intents[id])
    ensures SameUncertain(s, RowTurn(s, id, now, lease).0)
  {
    hide Judge; hide Leased; hide Full; hide Charge;
  }

  lemma {:induction false} ClaimLeavesUncertain(s: Db, readings: nat -> Time, k: nat, lease: Id)
    ensures SameUncertain(s, ClaimFrom(s, readings, k, lease).0)
    decreases |OpenIds(s)|
  {
    hide ClaimTurn; hide ClaimFrom; hide OpenIds;
    ClaimTurns(s, readings, k, lease);
    TurnShrinks(s, readings(k), lease);
    TurnLeavesUncertain(s, readings(k), lease);
    if ClaimTurn(s, readings(k), lease).1.None? {
      ClaimLeavesUncertain(ClaimTurn(s, readings(k), lease).0, readings, k + 1, lease);
    }
  }

  /** No other transaction moves an uncertain row than a recovery of that very row. */
  lemma OthersLeaveUncertain(s: Db, a: Action, id: Id)
    requires Possible(s, a) && IsUncertain(s, id) && !(a.DoRecover? && a.id == id)
    ensures IsUncertain(Apply(s, a), id)
  {
    hide ClaimFrom; hide RecoverIntent; hide Deliver; hide EraseIntent; hide ChallengeDead; hide Aged;
    hide OldAttempt; hide OldCapture; hide RequestVerification; hide TokenProves; hide Highest;
    match a
    case DoClaim(readings, lease) => ClaimLeavesUncertain(s, readings, 0, lease);
    case DoDeliver(id', lease, now, later, around) => DeliveryTouchesOne(s, id', lease, now, later, around, id);
    case DoRequestVerification(q, now) => RequestLeavesUncertain(s, q, now, id);
    case _ =>
  }

  lemma RequestLeavesUncertain(s: Db, q: VerificationRequest, now: Time, id: Id)
    requires IsUncertain(s, id) && q.intent !in s.intents
    ensures IsUncertain(RequestVerification(s, q, now).0, id)
  {
    hide Challenged; hide TooSoon; hide Highest;
  }

  lemma DeliveryTouchesOne(s: Db, id': Id, lease: Id, now: Time, later: Time, e: Surroundings, id: Id)
    requires IsUncertain(s, id)
    ensures IsUncertain(Deliver(s, id', lease, now, later, e).0, id)
  {
    hide Send; hide Highest; hide Allowed;
  }

  /** No blind resend: over every transaction, an uncertain row is moved exactly by its own recovery on a
      conclusive answer, and it is queued again exactly when the adapter, authoritative about absence and
      capturing locally, answered ABSENT and budget is left. */
  lemma NoBlindResend(s: Db, a: Action, id: Id)
    requires Inv(s) && Possible(s, a) && IsUncertain(s, id)
    ensures id in Apply(s, a).intents
    ensures !IsUncertain(Apply(s, a), id) <==> a.DoRecover? && a.id == id && Conclusive(a.answer, a.caps)
    ensures Apply(s, a).intents[id].row.state == Queued
            <==> a.DoRecover? && a.id == id && a.answer == Absent && a.caps.authoritativeAbsence && a.caps.localCapture
                 && s.intents[id].row.attemptCount < s.cfg.maxAttempts
    ensures !IsUncertain(Apply(s, a), id) ==> Apply(s, a).intents[id].row.state in {Queued, Failed, ProviderAccepted}
  {
    hide Inv; hide Possible; hide Apply; hide RecoverIntent; hide IntentOk;
    if a.DoRecover? && a.id == id {
      IntentOf(s, id);
      ReconciledIntent(s.cfg, id, s.intents[id], a.caps, a.answer, a.now, s.past);
      RecoverIs(s, a);
    } else {
      OthersLeaveUncertain(s, a, id);
    }
  }

  lemma RecoverIs(s: Db, a: Action)
    requires a.DoRecover? && a.id in s.intents
    ensures var r := RecoverIntent(s.cfg, s.intents[a.id], a.caps, a.answer, a.now);
            Apply(s, a) == if r.Some? then Put(s.(clock := a.now), a.id, r.value) else s.(clock := a.now)
  {
    hide RecoverIntent;
  }

  lemma ReconciledIntent(cfg: Settings, id: Id, i: Intent, caps: Capabilities, answer: Lookup, now: Time, past: History)
    requires IntentOk(cfg, id, i, past) && i.row.state == AcceptanceUncertain
    ensures var r := RecoverIntent(cfg, i, caps, answer, now);
            && (r.Some? <==> Conclusive(answer, caps))
            && (r.Some? ==> r.value.row.state == if answer == Accepted then ProviderAccepted
                                                 else if i.row.attemptCount < cfg.maxAttempts then Queued else Failed)
  {
    LatestIsCount(i);
  }

  /** What a conclusive answer makes of an uncertain row: its newest attempt is over, and a row that is queued again
      is ready after the retry interval. */
  lemma ReconciledRow(cfg: Settings, id: Id, i: Intent, caps: Capabilities, answer: Lookup, now: Time, past: History)
    requires IntentOk(cfg, id, i, past) && i.row.state == AcceptanceUncertain && Conclusive(answer, caps)
    ensures var r := RecoverIntent(cfg, i, caps, answer, now);
            var state := if answer == Accepted then ProviderAccepted else if i.row.attemptCount < cfg.maxAttempts then Queued else Failed;
            var code := if answer == Absent then LeaseRecovered else if caps.localCapture then CapturedLocal else AcceptedByProvider;
            && r.Some? && r.value.capture == i.capture && i.row.attemptCount in i.attempts
            && r.value.row == i.row.(state := state, lastCode := code, lease := None, leaseUntil := None,
                                     terminalAt := if state == Queued then None else Some(now), readyAt := now + cfg.retrySeconds)
            && r.value.attempts == i.attempts[i.row.attemptCount := Attempt(i.attempts[i.row.attemptCount].lease, Finished, Some(now), code)]
  {
    LatestIsCount(i);
    assert i.row.attemptCount in i.attempts;
    assert AttemptOk(i, i.row.attemptCount);
  }

  /** The step from s to t is such a recovery of the row. */
  ghost predicate Requeues(s: Db, t: Db, id: Id) {
    exists a :: Possible(s, a) && t == Apply(s, a) && a.DoRecover? && a.id == id && a.answer == Absent
                && a.caps.authoritativeAbsence && a.caps.localCapture
  }

  /** Over runs: a row that was uncertain and is queued later was requeued in between by such a recovery, at a
      moment when it was uncertain, had budget left, and had never been captured. */
  lemma {:induction false} NoBlindResendInRuns(run: seq<Db>, i: nat, j: nat, id: Id)
    requires FromEmpty(run) && i < j < |run| && IsUncertain(run[i], id)
    requires id in run[j].intents && run[j].intents[id].row.state == Queued
    ensures exists k :: i <= k < j && IsUncertain(run[k], id) && Requeues(run[k], run[k + 1], id)
                        && run[k].intents[id].row.attemptCount < run[k].cfg.maxAttempts && run[k].past.captures[id] == 0
    decreases j - i
  {
    hide FromEmpty; hide Inv; hide Step; hide Possible; hide Apply; hide Conclusive;
    ReachableOk(run, i);
    StepsOf(run, i);
    var a :| Possible(run[i], a) && run[i + 1] == Apply(run[i], a);
    NoBlindResend(run[i], a, id);
    CaptureLookupIsTrue(run, i, id);
    if IsUncertain(run[i + 1], id) {
      NoBlindResendInRuns(run, i + 1, j, id);
    } else {
      Absorbing(run, i + 1, j, id);
      assert Requeues(run[i], run[i + 1], id);
    }
  }

  /** The capture backend's ABSENT is the truth about every row `recover` asks it about: an uncertain
      row was never captured, so asking again for it cannot capture it twice. */
  lemma CaptureLookupIsTrue(run: seq<Db>, i: nat, id: Id)
    requires FromEmpty(run) && i < |run| && id in run[i].intents && run[i].intents[id].row.state == AcceptanceUncertain
    ensures CaptureLookup(run[i].intents[id]) == Absent && run[i].past.captures[id] == 0
  {
    hide FromEmpty;
    ReachableOk(run, i);
    IntentOf(run[i], id);
  }

  /** An expired lease is always reclaimed before any send: the row goes back to the queue at once, under
      the same attempt number, and the adapter is not consulted. */
  lemma ExpiredIsReclaimed(run: seq<Db>, i: nat, id: Id, caps: Capabilities, answer: Lookup, now: Time)
    requires FromEmpty(run) && i < |run| && id in run[i].intents && Expired(run[i].intents[id], now)
    ensures var x := run[i].intents[id]; var r := RecoverIntent(run[i].cfg, x, caps, answer, now);
            && r.Some? && Pending(x) && Pending(r.value)
            && r.value.row == x.row.(lastCode := ClaimRecovered, lease := None, leaseUntil := None,
                                     terminalAt := None, readyAt := now)
            && r.value.capture == x.capture
  {
    hide FromEmpty;
    hide RecoverIntent;
    ReachableOk(run, i);
    IntentOf(run[i], id);
    ExpiredRecovers(run[i].cfg, id, run[i].intents[id], caps, answer, now, run[i].past);
  }

  lemma ExpiredRecovers(cfg: Settings, id: Id, x: Intent, caps: Capabilities, answer: Lookup, now: Time, past: History)
    requires IntentOk(cfg, id, x, past) && Expired(x, now)
    ensures var r := RecoverIntent(cfg, x, caps, answer, now);
            && r.Some? && Pending(x) && Pending(r.value)
            && r.value.row == x.row.(lastCode := ClaimRecovered, lease := None, leaseUntil := None,
                                     terminalAt := None, readyAt := now)
            && r.value.capture == x.capture
  {
    LatestIsCount(x);
    CarrierIsNewest(cfg, id, x, past);
  }

  // ---------------------------------------------------------------- challenges

  /** A captured verification message was captured while its challenge was the recipient's live,
      unexpired one for that address, and had not been answered. */
  lemma CapturedWhileLive(run: seq<Db>, i: nat, a: Action, id: Id)
    requires FromEmpty(run) && i < |run| && Possible(run[i], a) && Captures(run[i], Apply(run[i], a), id)
    requires id in run[i].intents && run[i].intents[id].row.challenge.Some?
    ensures a.DoDeliver? && ChallengeLive(run[i], run[i].intents[id].row, a.now)
    ensures run[i].past.verified[run[i].intents[id].row.challenge.value] == 0
  {
    hide FromEmpty; hide Captures; hide Apply; hide IssuesOk;
    ReachableOk(run, i);
    OnlyDeliveryCaptures(run[i], a, id);
    IntentOf(run[i], id);
    var p := run[i].intents[id].row.recipient;
    assert ChallengeOk(p, run[i].addresses[p], run[i].past);
  }

  /** Each challenge is accepted at most once in a run. */
  lemma AcceptedOnce(run: seq<Db>, i: nat, identity: Id, challenge: Id, token: string, now: Time)
    requires FromEmpty(run) && i < |run|
    ensures run[i].past.verified[challenge] <= 1
    ensures run[i].past.verified[challenge] == 1 ==> !VerifyAddress(run[i], identity, true, challenge, token, now).1
  {
    hide FromEmpty; hide IntentsOk; hide IssuesOk; hide SuppressVerification;
    ReachableOk(run, i);
    if identity in run[i].addresses { assert ChallengeOk(identity, run[i].addresses[identity], run[i].past); }
  }

  /** New challenges for an identity never exceed the daily limit and are at least the resend interval apart. */
  lemma ChallengesAreLimited(run: seq<Db>, i: nat, identity: Id)
    requires FromEmpty(run) && i < |run|
    ensures Spaced(run[i].cfg, run[i].Issues(identity))
    ensures forall d :: CountDay(run[i].Issues(identity), d) <= run[i].cfg.verificationsPerDay
  {
    hide FromEmpty; hide IntentsOk; hide Spaced; hide CountDay;
    ReachableOk(run, i);
    NewAddressOk(run[i], identity);
    assert IssuesOk(run[i].cfg, run[i].Issues(identity), AddressOf(run[i], identity), run[i].clock);
  }

  // ---------------------------------------------------------------- tombstones

  /** Terminal states are never left, terminal times are set exactly there, erased payloads are terminal
      and stay erased, and no intent disappears or changes what it was asked to send. */
  lemma Absorbing(run: seq<Db>, i: nat, j: nat, id: Id)
    requires FromEmpty(run) && i <= j < |run| && id in run[i].intents
    ensures id in run[j].intents
    ensures var x := run[i].intents[id]; var y := run[j].intents[id];
            && y.row.key == x.row.key && y.row.fingerprint == x.row.fingerprint && y.row.deliveryDigest == x.row.deliveryDigest
            && (Terminal(x.row.state) ==> y.row.state == x.row.state && y.row.terminalAt == x.row.terminalAt)
            && (y.row.terminalAt.Some? <==> Terminal(y.row.state))
            && (y.row.erasedAt.Some? ==> Terminal(y.row.state))
            && (x.row.erasedAt.Some? ==> y.row.erasedAt == x.row.erasedAt)
            && (y.row.erasedAt.None? ==> y.row.payload == x.row.payload)
  {
    hide FromEmpty; hide IntentsOk; hide AddressesOk; hide QuotaOk; hide Step;
    ReachableOk(run, i);
    RunOf(run);
    RunKeeps(run, i, j);
    IntentOf(run[j], id);
  }

  /** A request key names one intent forever. */
  lemma OneIntentPerKey(run: seq<Db>, i: nat, j: nat, x: Id, y: Id)
    requires FromEmpty(run) && i <= j < |run| && x in run[i].intents && y in run[j].intents
    requires run[i].intents[x].row.key == run[j].intents[y].row.key
    ensures x == y && run[i].intents[x].row.fingerprint == run[j].intents[y].row.fingerprint
  {
    hide FromEmpty; hide IntentsOk; hide AddressesOk; hide QuotaOk;
    Absorbing(run, i, j, x);
    ReachableOk(run, j);
  }

  /** A replayed request changes nothing: the same fingerprint returns the stored intent, another is refused. */
  lemma ReplayIsFree(run: seq<Db>, i: nat, id: Id, q: VerificationRequest, n: NoticeRequest, now: Time)
    requires FromEmpty(run) && i < |run| && id in run[i].intents
    ensures q.key == run[i].intents[id].row.key ==>
              RequestVerification(run[i], q, now) ==
              (run[i].(clock := now),
               if q.admitted && run[i].intents[id].row.fingerprint == VerificationPrint(q.identity, q.payload.to, q.key)
               then Stored(id) else Declined)
    ensures n.key == run[i].intents[id].row.key ==>
              RequestMessage(run[i], n, now) ==
              (run[i].(clock := now),
               if n.approved && AddressOf(run[i], n.recipient).verified != "" && 1 <= |n.key| <= 160
                  && run[i].intents[id].row.fingerprint
                     == NoticePrint(n.recipient, n.category, NoticePayload(run[i], n), n.act)
               then Stored(id) else Declined)
  {
    hide FromEmpty; hide IntentsOk; hide AddressesOk; hide QuotaOk; hide Issue;
    ReachableOk(run, i);
    var s := run[i].(clock := now);
    assert WithKey(s, s.intents[id].row.key) == {id} by {
      assert forall j | j in WithKey(s, s.intents[id].row.key) :: j == id;
    }
  }

  // ---------------------------------------------------------------- recovery with other workers about

  /** The lease a row held when it was scanned is no longer its lease. */
  ghost predicate LeaseGone(scan: Db, s: Db, id: Id)
    requires id in scan.intents
  {
    id in s.intents && s.intents[id].row.lease != scan.intents[id].row.lease
  }

  /** A scanned lease that is gone does not come back while other workers act. */
  lemma StaysGone(scan: Db, s: Db, t: Db, id: Id)
    requires Inv(scan) && Kept(scan, s) && Kept(s, t) && id in scan.intents && scan.intents[id].row.lease.Some?
    requires LeaseGone(scan, s, id)
    ensures LeaseGone(scan, t, id)
  {
    hide Inv;
    IntentOf(scan, id);
    CarrierIsNewest(scan.cfg, id, scan.intents[id], scan.past);
  }

  /** After its own recovery transaction a lease expired at the scan is gone, whoever reclaimed it. */
  lemma ReclaimedNow(scan: Db, s: Db, id: Id, caps: Capabilities, answer: Lookup, now: Time)
    requires Inv(scan) && Inv(s) && Kept(scan, s) && scan.clock <= s.clock <= now
    requires id in scan.intents && Expired(scan.intents[id], scan.clock)
    ensures LeaseGone(scan, Recover(s, id, caps, answer, now).0, id)
  {
    hide Inv; hide IntentOk; hide RecoverIntent; hide Kept;
    var x := scan.intents[id];
    IntentOf(scan, id);
    KeptStored(scan, s, id);
    IntentOf(s, id);
    LeaseIsDrawn(scan.cfg, id, x, scan.past);
    CarrierIsNewest(scan.cfg, id, x, scan.past);
    if s.intents[id].row.lease == x.row.lease {
      CarrierIsNewest(s.cfg, id, s.intents[id], s.past);
      KeptLease(scan, s, id);
      ExpiredRecovers(s.cfg, id, s.intents[id], caps, answer, now, s.past);
    } else {
      RecoveredLease(s.cfg, s.intents[id], caps, answer, now);
    }
  }

  lemma KeptStored(s: Db, t: Db, id: Id)
    requires Kept(s, t) && id in s.intents
    ensures id in t.intents
  {
  }

  lemma KeptLease(s: Db, t: Db, id: Id)
    requires Kept(s, t) && id in s.intents && id in t.intents && t.intents[id].row.lease == s.intents[id].row.lease
    requires s.intents[id].row.lease.Some? && s.intents[id].row.lease.value in s.past.slots
    ensures t.intents[id].row.leaseUntil == s.intents[id].row.leaseUntil
  {
  }

  lemma LeaseIsDrawn(cfg: Settings, id: Id, i: Intent, past: History)
    requires IntentOk(cfg, id, i, past)
    ensures i.row.lease.Some? <==> i.row.leaseUntil.Some?
    ensures i.row.lease.Some? ==> i.row.lease.value in past.slots
  {
    if i.row.lease.Some? { CarrierIsNewest(cfg, id, i, past); }
  }

  lemma RecoveredLease(cfg: Settings, i: Intent, caps: Capabilities, answer: Lookup, now: Time)
    ensures RecoverIntent(cfg, i, caps, answer, now).Some? ==> RecoverIntent(cfg, i, caps, answer, now).value.row.lease == None
  {
  }

  /** One recovery transaction of a pass: the tables it found and left, and what it reported. */
  datatype Turn = Turn(id: Id, before: Db, after: Db, changed: bool)

  ghost predicate IsTurn(t: Turn, caps: Capabilities) {
    exists answer, now :: t.before.clock <= now && (t.after, t.changed) == Recover(t.before, t.id, caps, answer, now)
  }

  lemma TurnIs(t: Turn, caps: Capabilities, answer: Lookup, now: Time)
    requires t.before.clock <= now && (t.after, t.changed) == Recover(t.before, t.id, caps, answer, now)
    ensures IsTurn(t, caps)
  {
    hide Recover;
  }

  /** What the report of a turn means: a row not counted was left as it was, and an uncertain row is counted
      exactly when it is uncertain no more, an expired lease always, any other row never. */
  lemma TurnMeans(t: Turn, caps: Capabilities)
    requires Inv(t.before) && IsTurn(t, caps)
    ensures !t.changed ==> t.after == t.before.(clock := t.after.clock)
    ensures IsUncertain(t.before, t.id) ==> (t.changed <==> !IsUncertain(t.after, t.id))
    ensures t.changed <==> t.id in t.before.intents && t.after.intents[t.id] != t.before.intents[t.id]
    ensures t.id in t.before.intents && Expired(t.before.intents[t.id], t.after.clock)
            ==> t.changed && t.after.intents[t.id].row.lease == None
    ensures t.changed ==> IsUncertain(t.before, t.id) || Expired(t.before.intents[t.id], t.after.clock)
  {
    hide Inv; hide RecoverIntent; hide IntentOk; hide Expired;
    var answer, now :| t.before.clock <= now && (t.after, t.changed) == Recover(t.before, t.id, caps, answer, now);
    if t.id in t.before.intents {
      IntentOf(t.before, t.id);
      RecoveredIntent(t.before.cfg, t.id, t.before.intents[t.id], caps, answer, now, t.before.past);
      if Expired(t.before.intents[t.id], now) {
        ExpiredRecovers(t.before.cfg, t.id, t.before.intents[t.id], caps, answer, now, t.before.past);
      }
    }
  }

  lemma RecoveredIntent(cfg: Settings, id: Id, i: Intent, caps: Capabilities, answer: Lookup, now: Time, past: History)
    requires IntentOk(cfg, id, i, past)
    ensures var r := RecoverIntent(cfg, i, caps, answer, now);
            && (r.Some? ==> r.value != i && (Expired(i, now) || i.row.state == AcceptanceUncertain))
            && (r.Some? && i.row.state == AcceptanceUncertain ==> r.value.row.state != AcceptanceUncertain)
  {
    if !Terminal(i.row.state) { LatestIsCount(i); }
  }

  /** The turns of a pass in order, others acting before each of them. */
  ghost predicate Trace(s: Db, turns: seq<Turn>, t: Db) {
    && (forall x | 0 <= x < |turns| :: Reach(AfterTurns(s, turns, x), turns[x].before))
    && t == AfterTurns(s, turns, |turns|)
  }

  function AfterTurns(s: Db, turns: seq<Turn>, x: nat): Db
    requires x <= |turns|
  {
    if x == 0 then s else turns[x - 1].after
  }

  /** The rows a pass counted. */
  function Counted(turns: seq<Turn>): set<Id> { set t | t in turns && t.changed :: t.id }

  lemma TraceLonger(s: Db, turns: seq<Turn>, t: Db, turn: Turn)
    requires Trace(s, turns, t) && Reach(t, turn.before)
    ensures Trace(s, turns + [turn], turn.after)
    ensures Counted(turns + [turn]) == Counted(turns) + if turn.changed then {turn.id} else {}
  {
    hide Reach;
    var more := turns + [turn];
    forall x | 0 <= x < |more| ensures Reach(AfterTurns(s, more, x), more[x].before) {
      assert AfterTurns(s, more, x) == AfterTurns(s, turns, x);
      if x < |turns| { assert more[x] == turns[x]; }
    }
  }

  /** The scan's order: every expired lease before every uncertain row. */
  lemma ExpiredFirst(intents: map<Id, Intent>, now: Time, ids: seq<Id>)
    requires ids == Sorted(RecoverIds(intents, now), RecoverRank(intents))
    ensures forall id :: id in ids <==> id in RecoverIds(intents, now)
    ensures forall x | 0 <= x < |ids| :: ids[x] in intents
    ensures forall x, y | 0 <= x < y < |ids| :: ids[x] != ids[y]
    ensures forall x, y | 0 <= x < |ids| && 0 <= y < |ids| && ids[x] in intents && ids[y] in intents
                          && Expired(intents[ids[x]], now) && !Expired(intents[ids[y]], now) :: x < y
  {
    hide Sorted; hide RecoverIds;
    forall x | 0 <= x < |ids| ensures ids[x] in intents { ScannedIsStored(intents, now, ids[x]); }
    forall x, y | 0 <= x < |ids| && 0 <= y < |ids| && ids[x] in intents && ids[y] in intents
                  && Expired(intents[ids[x]], now) && !Expired(intents[ids[y]], now)
      ensures x < y
    {
      ScannedIsUncertain(intents, now, ids[y]);
      assert y < x ==> Before(RecoverRank(intents)(ids[y]), RecoverRank(intents)(ids[x]));
    }
  }

  lemma ScannedIsStored(intents: map<Id, Intent>, now: Time, id: Id)
    requires id in RecoverIds(intents, now)
    ensures id in intents
  {
  }

  lemma ScannedIsUncertain(intents: map<Id, Intent>, now: Time, id: Id)
    requires id in RecoverIds(intents, now) && !Expired(intents[id], now)
    ensures intents[id].row.state == AcceptanceUncertain
  {
  }

  lemma KeptItself(s: Db)
    ensures Kept(s, s)
  {
  }

  /** Time passing is itself a possible transaction: a recovery of nothing. */
  lemma ClockMoves(s: Db, now: Time)
    requires s.clock <= now && Inv(s)
    ensures Reach(s, s.(clock := now))
  {
    hide Reach; hide Inv;
    ReachSelf(s);
    var caps := Capabilities(true, true);
    var nobody :| nobody !in s.intents.Keys by { Unused(s.intents.Keys); }
    ReachStep(s, s, DoRecover(nobody, caps, Absent, now));
  }

  lemma {:induction false} Unused(ids: set<Id>)
    ensures exists x: Id :: x !in ids
  {
    var top := if ids == {} then 0 else Highest(ids);
    assert forall x | x in ids :: x <= top;
    assert top + 1 !in ids;
  }

  /** What one more recovery transaction, and whatever others did around it, leaves of the earlier ones. */
  lemma AllStayGone(scan: Db, s: Db, t: Db, ids: seq<Id>, k: nat)
    requires Inv(scan) && Kept(scan, s) && Kept(s, t) && k <= |ids|
    requires forall x | 0 <= x < |ids| :: ids[x] in scan.intents
    requires forall x | 0 <= x < k && Expired(scan.intents[ids[x]], scan.clock) :: LeaseGone(scan, s, ids[x])
    ensures forall x | 0 <= x < k && Expired(scan.intents[ids[x]], scan.clock) :: LeaseGone(scan, t, ids[x])
  {
    hide Inv; hide Kept; hide LeaseGone; hide IntentOk;
    forall x | 0 <= x < k && Expired(scan.intents[ids[x]], scan.clock) ensures LeaseGone(scan, t, ids[x]) {
      IntentOf(scan, ids[x]);
      LeaseIsDrawn(scan.cfg, ids[x], scan.intents[ids[x]], scan.past);
      StaysGone(scan, s, t, ids[x]);
    }
  }

  /** Having worked through the scan up to k: if it was worked through to the end, or an uncertain row was
      already reached, every lease expired at the scan is gone. */
  lemma ScanDone(scan: Db, s: Db, ids: seq<Id>, k: nat, mine: set<Id>)
    requires ids == Sorted(RecoverIds(scan.intents, scan.clock), RecoverRank(scan.intents)) && k <= |ids|
    requires forall x | 0 <= x < |ids| :: ids[x] in scan.intents
    requires forall x | 0 <= x < k && Expired(scan.intents[ids[x]], scan.clock) :: LeaseGone(scan, s, ids[x])
    requires forall m | m in mine :: m in ids[..k]
    ensures mine <= RecoverIds(scan.intents, scan.clock)
    ensures k == |ids| || (exists m :: m in mine && !Expired(scan.intents[m], scan.clock)) ==>
              forall id | id in scan.intents && Expired(scan.intents[id], scan.clock) :: LeaseGone(scan, s, id)
  {
    hide Sorted; hide LeaseGone; hide Expired; hide RecoverIds;
    ExpiredFirst(scan.intents, scan.clock, ids);
    if k == |ids| || exists m :: m in mine && !Expired(scan.intents[m], scan.clock) {
      if k < |ids| {
        var m :| m in mine && !Expired(scan.intents[m], scan.clock);
        var y :| 0 <= y < k && ids[y] == m;
      }
      forall id | id in scan.intents && Expired(scan.intents[id], scan.clock) ensures LeaseGone(scan, s, id) {
        ExpiredIsScanned(scan.intents, scan.clock, id);
        var x :| 0 <= x < |ids| && ids[x] == id;
      }
    }
  }

  lemma ExpiredIsScanned(intents: map<Id, Intent>, now: Time, id: Id)
    requires id in intents && Expired(intents[id], now)
    ensures id in RecoverIds(intents, now)
  {
  }

  // ---------------------------------------------------------------- housekeeping with other workers about

  /** A finished payload whose retention is over, erased now or earlier. */
  ghost predicate Redacted(s: Db, id: Id) { id in s.intents && s.intents[id].row.erasedAt.Some? }

  lemma StaysRedacted(s: Db, t: Db, id: Id)
    requires Kept(s, t) && Redacted(s, id)
    ensures Redacted(t, id)
  {
    assert Evolves(s.intents[id], t.intents[id]);
  }

  lemma AllStayRedacted(s: Db, t: Db, ids: set<Id>)
    requires Kept(s, t) && forall id | id in ids :: Redacted(s, id)
    ensures forall id | id in ids :: Redacted(t, id)
  {
    hide Kept; hide Redacted;
    forall id | id in ids ensures Redacted(t, id) { StaysRedacted(s, t, id); }
  }

  /** One erasing transaction of a pass. */
  predicate IsErasure(t: Turn, cutoff: Time) {
    t.before.clock <= t.after.clock && (t.after, t.changed) == Erase(t.before, t.id, cutoff, t.after.clock)
  }

  /** The report of such a turn is true: it erased the payload there and then, or did nothing. */
  lemma ErasureMeans(t: Turn, cutoff: Time)
    requires IsErasure(t, cutoff)
    ensures t.changed <==> !Redacted(t.before, t.id) && Redacted(t.after, t.id)
    ensures t.changed ==> t.after.intents[t.id].row.payload == ERASED
    ensures !t.changed ==> t.after == t.before.(clock := t.after.clock)
  {
    hide Aged; hide ChallengeDead;
  }

  function Candidates(s: Db, cutoff: Time): set<Id> { set id | id in s.intents && Erasable(s, s.intents[id], cutoff, s.clock) }

  function OldAttempts(intents: map<Id, Intent>, cutoff: Time): set<(Id, nat)> {
    set id, n | id in intents && n in intents[id].attempts && OldAttempt(intents[id], n, cutoff) :: (id, n)
  }

  function OldCaptures(intents: map<Id, Intent>, cutoff: Time): set<Id> {
    set id | id in intents && OldCapture(intents[id], cutoff)
  }

  /** The closing deletions of `housekeeping`: the tables each statement found, and what it chose. */
  datatype Sweep = Sweep(start: Db, first: Db, attempts: set<(Id, nat)>, second: Db, captures: set<Id>, third: Db)

  predicate Chosen<T>(chosen: set<T>, all: set<T>, limit: nat) {
    chosen <= all && |chosen| == if |all| <= limit then |all| else limit
  }

  ghost predicate Swept(w: Sweep, limit: nat, cutoff: Time, t: Db) {
    && Reach(w.start, w.first) && Chosen(w.attempts, OldAttempts(w.first.intents, cutoff), limit)
    && Reach(DropAttempts(w.first, w.attempts, cutoff), w.second)
    && Chosen(w.captures, OldCaptures(w.second.intents, cutoff), limit)
    && Reach(DropCaptures(w.second, w.captures, cutoff), w.third) && t == DropBuckets(w.third, cutoff)
  }

  /** A deletion removes exactly the chosen attempts; when the limit does not cut it short, no old one is left. */
  lemma AttemptsLeft(s: Db, chosen: set<(Id, nat)>, limit: nat, cutoff: Time)
    requires Chosen(chosen, OldAttempts(s.intents, cutoff), limit)
    ensures var t := DropAttempts(s, chosen, cutoff);
            && OldAttempts(t.intents, cutoff) == OldAttempts(s.intents, cutoff) - chosen
            && (forall id, n | id in s.intents && n in s.intents[id].attempts ::
                  id in t.intents && (n in t.intents[id].attempts <==> (id, n) !in chosen))
            && (|OldAttempts(s.intents, cutoff)| <= limit ==> OldAttempts(t.intents, cutoff) == {})
  {
    var all := OldAttempts(s.intents, cutoff);
    if |all| <= limit { WholeSet(chosen, all); }
  }

  lemma CapturesLeft(s: Db, chosen: set<Id>, limit: nat, cutoff: Time)
    requires Chosen(chosen, OldCaptures(s.intents, cutoff), limit)
    ensures var t := DropCaptures(s, chosen, cutoff);
            && OldCaptures(t.intents, cutoff) == OldCaptures(s.intents, cutoff) - chosen
            && (forall id | id in s.intents :: id in t.intents
                  && t.intents[id].capture == if id in chosen then None else s.intents[id].capture)
            && (|OldCaptures(s.intents, cutoff)| <= limit ==> OldCaptures(t.intents, cutoff) == {})
  {
    var all := OldCaptures(s.intents, cutoff);
    if |all| <= limit { WholeSet(chosen, all); }
  }

  lemma WholeSet<T>(part: set<T>, whole: set<T>)
    requires part <= whole && |part| == |whole|
    ensures part == whole
  {
    assert |whole - part| == 0;
  }

  /** A row that was finished and aged at the scan is redacted by its own erasing transaction at the latest. */
  lemma RedactedNow(scan: Db, s: Db, id: Id, cutoff: Time, now: Time)
    requires Inv(s) && Kept(scan, s) && s.clock <= now && id in scan.intents && Aged(scan.intents[id], cutoff)
    ensures Redacted(Erase(s, id, cutoff, now).0, id)
  {
    hide Inv; hide IntentsOk; hide Kept; hide EraseIntent; hide ChallengeDead; hide IntentOk;
    KeptStored(scan, s, id);
    StillAged(scan, s, id, cutoff);
    IntentOf(s, id);
    NotWaiting(s.cfg, id, s.intents[id], s.past);
    ErasedIsErased(s.intents[id], cutoff, now);
  }

  lemma StillAged(s: Db, t: Db, id: Id, cutoff: Time)
    requires Kept(s, t) && id in s.intents && id in t.intents && Aged(s.intents[id], cutoff)
    ensures Aged(t.intents[id], cutoff)
  {
    assert Evolves(s.intents[id], t.intents[id]);
  }

  lemma NotWaiting(cfg: Settings, id: Id, i: Intent, past: History)
    requires IntentOk(cfg, id, i, past) && Terminal(i.row.state)
    ensures i.row.lease.None?
  {
  }

  lemma ErasedIsErased(i: Intent, cutoff: Time, now: Time)
    ensures EraseIntent(i, cutoff, now).row.erasedAt == Some(now)
  {
  }
}
