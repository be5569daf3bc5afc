/** What becomes of a challenge while others act: it stays as it is until it is replaced, answered, or expired
    and cleared; and a row whose challenge has ended is never picked up again. */
module OutboxChallenges {
  import opened Prelude
  import opened Ordering
  import opened OutboxModel
  import opened OutboxTransactions
  import opened OutboxInvariant
  import opened OutboxRuns
  import opened OutboxTheorems

  predicate SameChallenge(a: AddressRecord, b: AddressRecord) {
    b.challenge == a.challenge && b.digest == a.digest && b.expiresAt == a.expiresAt && b.pending == a.pending
  }

  /** A challenge that was drawn before and is some record's afterwards is just as it was before. */
  ghost predicate ChallengesKept(s: Db, t: Db) {
    forall p | p in t.addresses && t.addresses[p].challenge.Some? && t.addresses[p].challenge.value in s.past.slots ::
      p in s.addresses && SameChallenge(s.addresses[p], t.addresses[p])
  }

  lemma {:induction false} ClaimKeepsAddresses(s: Db, readings: nat -> Time, k: nat, lease: Id)
    ensures ClaimFrom(s, readings, k, lease).0.addresses == s.addresses
    decreases |OpenIds(s)|
  {
    hide ClaimTurn; hide ClaimFrom; hide OpenIds;
    ClaimTurns(s, readings, k, lease);
    TurnShrinks(s, readings(k), lease);
    TurnKeepsAddresses(s, readings(k), lease);
    if ClaimTurn(s, readings(k), lease).1.None? {
      ClaimKeepsAddresses(ClaimTurn(s, readings(k), lease).0, readings, k + 1, lease);
    }
  }

  lemma TurnKeepsAddresses(s: Db, now: Time, lease: Id)
    ensures ClaimTurn(s, now, lease).0.addresses == s.addresses
  {
    hide Judge; hide First; hide Leased;
  }

  /** Only the three operations that speak about addresses change any. */
  lemma AddressesChangeBy(s: Db, a: Action)
    requires !a.DoErase? && !a.DoRequestVerification? && !a.DoVerifyAddress?
    ensures Apply(s, a).addresses == s.addresses
  {
    hide ClaimFrom; hide RecoverIntent; hide Allowed; hide Send; hide Highest;
    match a
    case DoClaim(readings, lease) => ClaimKeepsAddresses(s, readings, 0, lease);
    case _ =>
  }

  /** A challenge ends only when a new one is issued to the identity, when its own token answers it in time, or
      when it has expired and is cleared. */
  lemma ChallengeEndsBy(s: Db, a: Action, p: Id)
    requires Possible(s, a) && p in s.addresses && s.addresses[p].challenge.Some?
    ensures p in Apply(s, a).addresses
    ensures var was, after := s.addresses[p], Apply(s, a).addresses[p];
            || SameChallenge(was, after)
            || (a.DoRequestVerification? && a.ask.identity == p && after.challenge == Some(a.ask.challenge)
                && a.ask.challenge !in s.past.slots && !TooSoon(s.cfg, was, a.now))
            || (after.challenge.None?
                && ((a.DoVerifyAddress? && a.identity == p && TokenProves(was, a.challenge, a.token, a.now))
                    || (a.DoErase? && was.expiresAt.Some? && was.expiresAt.value <= a.now)))
  {
    hide Claim; hide Deliver; hide Recover; hide DropAttempts; hide DropCaptures; hide DropBuckets; hide RequestMessage;
    hide EraseIntent; hide ChallengeDead; hide Aged; hide TooSoon; hide TokenProves; hide SuppressVerification; hide Highest;
    if !a.DoErase? && !a.DoRequestVerification? && !a.DoVerifyAddress? { AddressesChangeBy(s, a); }
  }

  lemma ApplyKeepsChallenges(s: Db, a: Action)
    requires Possible(s, a)
    ensures ChallengesKept(s, Apply(s, a))
  {
    hide Apply; hide Possible; hide TokenProves; hide TooSoon;
    var t := Apply(s, a);
    forall p | p in t.addresses && t.addresses[p].challenge.Some? && t.addresses[p].challenge.value in s.past.slots
      ensures p in s.addresses && SameChallenge(s.addresses[p], t.addresses[p])
    {
      if p in s.addresses && s.addresses[p].challenge.Some? {
        ChallengeEndsBy(s, a, p);
      } else {
        NewChallengeIsFresh(s, a, p);
      }
    }
  }

  lemma NewChallengeIsFresh(s: Db, a: Action, p: Id)
    requires Possible(s, a) && (p in s.addresses ==> s.addresses[p].challenge.None?)
    ensures var t := Apply(s, a);
            p in t.addresses && t.addresses[p].challenge.Some? ==> t.addresses[p].challenge.value !in s.past.slots
  {
    hide Claim; hide Deliver; hide Recover; hide DropAttempts; hide DropCaptures; hide DropBuckets; hide RequestMessage;
    hide EraseIntent; hide ChallengeDead; hide Aged; hide TooSoon; hide SuppressVerification; hide Highest;
    if !a.DoErase? && !a.DoRequestVerification? && !a.DoVerifyAddress? { AddressesChangeBy(s, a); }
  }

  lemma ChallengesKeptTransitive(s: Db, t: Db, u: Db)
    requires ChallengesKept(s, t) && ChallengesKept(t, u) && Kept(s, t)
    ensures ChallengesKept(s, u)
  {
    assert forall c | c in s.past.slots :: c in t.past.slots;
  }

  // ---------------------------------------------------------------- rows whose challenge has ended

  /** A row nobody holds, whose challenge has ended. */
  predicate Idle(s: Db, id: Id) {
    id in s.intents && ChallengeDead(s, s.intents[id].row, s.clock)
    && s.intents[id].row.lease.None? && s.intents[id].row.state != AcceptanceUncertain
  }

  predicate Unheld(s: Db, id: Id) {
    id in s.intents && s.intents[id].row.lease.None? && s.intents[id].row.state != AcceptanceUncertain
  }

  lemma DeadStaysDead(s: Db, t: Db, id: Id)
    requires Inv(s) && Kept(s, t) && ChallengesKept(s, t) && id in s.intents && id in t.intents
    requires ChallengeDead(s, s.intents[id].row, s.clock)
    ensures ChallengeDead(t, t.intents[id].row, t.clock)
  {
    hide KeysOk; hide QuotaOk; hide AddressesOk;
    IntentOf(s, id);
    assert Evolves(s.intents[id], t.intents[id]);
  }

  /** No transaction takes up a row whose challenge has ended. */
  lemma IdleIsLeftAlone(s: Db, a: Action, id: Id)
    requires Inv(s) && Possible(s, a) && Idle(s, id)
    ensures Unheld(Apply(s, a), id)
  {
    hide Inv; hide Claim; hide Deliver; hide Recover; hide Erase; hide RequestVerification; hide VerifyAddress; hide RequestMessage;
    hide DropAttempts; hide DropCaptures; hide DropBuckets; hide ChallengeDead; hide Monotone;
    match a
    case DoClaim(readings, lease) => ClaimLeavesIdle(s, readings, lease, id);
    case DoDeliver(id', lease, now, later, around) => DeliveryLeavesUnheld(s, id', lease, now, later, around, id);
    case DoRecover(id', caps, answer, now) => RecoveryLeavesUnheld(s, id', caps, answer, now, id);
    case DoErase(id', cutoff, now) => ErasureLeavesUnheld(s, id', cutoff, now, id);
    case _ => OthersLeaveUnheld(s, a, id);
  }

  lemma OthersLeaveUnheld(s: Db, a: Action, id: Id)
    requires Possible(s, a) && Unheld(s, id) && !a.DoClaim? && !a.DoDeliver? && !a.DoRecover? && !a.DoErase?
    ensures Unheld(Apply(s, a), id)
  {
    hide Claim; hide Deliver; hide Recover; hide Erase; hide Highest; hide OldAttempt; hide OldCapture;
    hide RequestVerification; hide TokenProves; hide TooSoon; hide ChallengeLive; hide ChallengeDead;
    if a.DoRequestVerification? { RequestLeavesUnheld(s, a.ask, a.now, id); }
  }

  lemma RequestLeavesUnheld(s: Db, q: VerificationRequest, now: Time, id: Id)
    requires Unheld(s, id) && q.intent !in s.intents
    ensures Unheld(RequestVerification(s, q, now).0, id)
  {
    hide Challenged; hide TooSoon; hide Highest; hide ChallengeLive; hide ChallengeDead;
  }

  lemma ClaimLeavesIdle(s: Db, readings: nat -> Time, lease: Id, id: Id)
    requires Inv(s) && lease !in s.past.slots && Monotone(readings, s.clock) && Idle(s, id)
    ensures Unheld(Claim(s, readings, lease).0, id)
  {
    hide Inv; hide Claim; hide HonestNothing; hide Kept; hide IntentOk; hide Pending;
    ClaimIsHonest(s, readings, lease);
    ClaimKeeps(s, readings, lease);
    var (t, r) := Claim(s, readings, lease);
    ClockKept(s, t);
    if r.Work? && r.intent == id {
      assert Took(s, t, id, lease);
      NotLive(s, id, t.clock);
    } else if !r.Misconfigured? {
      assert PassedOver(s, t, id);
    }
  }

  lemma ClockKept(s: Db, t: Db)
    requires Kept(s, t)
    ensures s.clock <= t.clock
  {
  }

  lemma NotLive(s: Db, id: Id, now: Time)
    requires Idle(s, id) && s.clock <= now
    ensures s.intents[id].row.challenge.Some? && !ChallengeLive(s, s.intents[id].row, now)
  {
  }

  lemma DeliveryLeavesUnheld(s: Db, id': Id, lease: Id, now: Time, later: Time, e: Surroundings, id: Id)
    requires Unheld(s, id)
    ensures Unheld(Deliver(s, id', lease, now, later, e).0, id)
  {
    hide Send; hide Highest; hide Allowed;
  }

  lemma RecoveryLeavesUnheld(s: Db, id': Id, caps: Capabilities, answer: Lookup, now: Time, id: Id)
    requires Inv(s) && Unheld(s, id)
    ensures Unheld(Recover(s, id', caps, answer, now).0, id)
  {
    hide Inv; hide IntentOk; hide Highest;
    IntentOf(s, id);
    LeaseIsDrawn(s.cfg, id, s.intents[id], s.past);
  }

  lemma ErasureLeavesUnheld(s: Db, id': Id, cutoff: Time, now: Time, id: Id)
    requires Unheld(s, id)
    ensures Unheld(Erase(s, id', cutoff, now).0, id)
  {
    hide ChallengeDead; hide Aged;
  }

  /** Over any stretch of a run: challenges as above, and idle rows stay idle. */
  ghost predicate Quiet(s: Db, t: Db) {
    ChallengesKept(s, t) && forall id | Idle(s, id) :: Idle(t, id)
  }

  lemma ApplyKeepsQuiet(s: Db, a: Action)
    requires Inv(s) && Possible(s, a)
    ensures Quiet(s, Apply(s, a))
  {
    hide Inv; hide Possible; hide Apply; hide Kept; hide ChallengesKept; hide ChallengeDead;
    var t := Apply(s, a);
    ApplyKeepsChallenges(s, a);
    ApplyKeeps(s, a);
    forall id | Idle(s, id) ensures Idle(t, id) {
      IdleIsLeftAlone(s, a, id);
      DeadStaysDead(s, t, id);
    }
  }

  lemma {:induction false} RunKeepsQuiet(run: seq<Db>, j: nat)
    requires IsRun(run) && j < |run| && Inv(run[0])
    ensures Quiet(run[0], run[j])
  {
    hide Inv; hide Kept; hide Step; hide Possible; hide Apply; hide Idle; hide ChallengesKept;
    if j == 0 {
      QuietSelf(run[0]);
    } else {
      RunKeepsQuiet(run, j - 1);
      RunKeeps(run, 0, j - 1);
      assert Step(run[j - 1], run[j - 1 + 1]);
      StepKeepsQuiet(run[j - 1], run[j]);
      ChallengesKeptTransitive(run[0], run[j - 1], run[j]);
    }
  }

  lemma StepKeepsQuiet(s: Db, t: Db)
    requires Inv(s) && Step(s, t)
    ensures Quiet(s, t)
  {
    hide Inv; hide Possible; hide Apply; hide Quiet;
    var a :| Possible(s, a) && t == Apply(s, a);
    ApplyKeepsQuiet(s, a);
  }

  lemma QuietSelf(s: Db)
    ensures Quiet(s, s)
  {
  }

  lemma ReachKeepsQuiet(s: Db, t: Db)
    requires Inv(s) && Reach(s, t)
    ensures Quiet(s, t)
  {
    hide Inv; hide Quiet; hide Step;
    var run :| RunBetween(run, s, t);
    RunKeepsQuiet(run, |run| - 1);
  }

  // ---------------------------------------------------------------- a request and its answer

  /** The identity's waiting verification rows are suppressed, every other row is left as it was. */
  ghost predicate WaitingClosed(s: Db, t: Db, identity: Id, now: Time) {
    forall id | id in s.intents ::
      && id in t.intents
      && var x := s.intents[id].row;
      t.intents[id] == if x.recipient == identity && x.challenge.Some? && x.state in {Requested, Queued} && x.lease == None
                       then s.intents[id].(row := x.(state := Suppressed, lastCode := ChallengeEnded, terminalAt := Some(now)))
                       else s.intents[id]
  }

  lemma SuppressionCloses(s: Db, identity: Id, now: Time)
    ensures WaitingClosed(s, SuppressVerification(s, identity, now), identity, now)
    ensures SuppressVerification(s, identity, now).intents.Keys == s.intents.Keys
  {
  }

  lemma SameWaiting(s: Db, s0: Db, t: Db, identity: Id, now: Time)
    requires s0.intents == s.intents && WaitingClosed(s0, t, identity, now)
    ensures forall v: Db | v.intents == t.intents :: WaitingClosed(s, v, identity, now)
  {
  }

  /** A granted request and its answer, with anything others do in between. The answer is accepted exactly when the
      identity is still active, the challenge has neither been replaced or answered before nor expired, and the token is
      its own; it then verifies exactly the address that was proposed, and ends the challenge. */
  lemma RequestThenVerify(s: Db, q: VerificationRequest, now: Time, u: Db, active: bool, later: Time, token: string)
    requires Inv(s) && Possible(s, DoRequestVerification(q, now)) && |q.token| <= 128
    requires RequestVerification(s, q, now).1 == Stored(q.intent) && Reach(RequestVerification(s, q, now).0, u)
    requires u.clock <= later
    ensures var (v, verified) := VerifyAddress(u, q.identity, active, q.challenge, token, later);
            && (verified <==> active && later < now + s.cfg.challengeSeconds && token == q.token
                              && q.identity in u.addresses && u.addresses[q.identity].challenge == Some(q.challenge))
            && (!verified ==> v == u.(clock := later))
            && (verified ==>
                  && v.intents.Keys == u.intents.Keys && WaitingClosed(u, v, q.identity, later)
                  && v.addresses == u.addresses[q.identity := u.addresses[q.identity].(
                       verified := q.payload.to, verifiedAt := Some(later), pending := "", digest := None,
                       challenge := None, expiresAt := None)])
  {
    hide Inv; hide Reach; hide Kept; hide SuppressVerification; hide RequestVerification; hide ChallengeDead;
    hide WaitingClosed;
    SuppressionCloses(u.(clock := later), q.identity, later);
    SameWaiting(u, u.(clock := later), SuppressVerification(u.(clock := later), q.identity, later), q.identity, later);
    var t := RequestVerification(s, q, now).0;
    RequestVerificationKeeps(s, q, now);
    JustIssued(s, q, now);
    ReachKeepsQuiet(t, u);
  }

  /** The state in which a granted request leaves the tables. */
  lemma RequestIsIssued(s: Db, q: VerificationRequest, now: Time)
    requires q.intent !in s.intents && RequestVerification(s, q, now).1 == Stored(q.intent)
    ensures var s0 := s.(clock := now);
            RequestVerification(s, q, now).0 == Put(Issue(s0, q, now), q.intent, Intent(VerificationRow(q, now), map[], None))
  {
    hide Challenged; hide Highest; hide TooSoon;
    var s0 := s.(clock := now);
    assert WithKey(Issue(s0, q, now), q.key) <= WithKey(s0, q.key);
  }

  /** The new row can be claimed and delivered at once, and everything the identity was waiting for is closed. */
  lemma JustIssued(s: Db, q: VerificationRequest, now: Time)
    requires q.intent !in s.intents && RequestVerification(s, q, now).1 == Stored(q.intent)
    ensures var t := RequestVerification(s, q, now).0;
            && q.intent in t.intents && q.identity in t.addresses && q.challenge in t.past.slots
            && SameChallenge(t.addresses[q.identity],
                 NEW_ADDRESS.(pending := q.payload.to, digest := Some(TokenDigest(q.token)), challenge := Some(q.challenge),
                              expiresAt := Some(now + s.cfg.challengeSeconds)))
            && Eligible(t.intents[q.intent], now) && ChallengeLive(t, t.intents[q.intent].row, now)
            && t.intents[q.intent].row.payload == q.payload
            && (forall id | id in s.intents && s.intents[id].row.recipient == q.identity
                            && s.intents[id].row.challenge.Some? && Open(s.intents[id]) :: t.intents[id].row.state == Suppressed)
  {
    hide Highest;
    RequestIsIssued(s, q, now);
  }

  // ---------------------------------------------------------------- redaction of ended challenges

  /** A row whose challenge had ended at the scan is redacted by its own erasing transaction at the latest. */
  lemma EndedIsRedacted(scan: Db, s: Db, id: Id, cutoff: Time)
    requires Inv(scan) && Reach(scan, s) && Idle(scan, id)
    ensures Redacted(Erase(s, id, cutoff, s.clock).0, id)
  {
    hide Inv; hide Reach; hide EraseIntent; hide ChallengesKept; hide Aged; hide ChallengeDead;
    ReachKeepsQuiet(scan, s);
    assert Idle(s, id);
    ErasedIsErased(s.intents[id], cutoff, s.clock);
    SameDeath(s, id);
  }

  lemma SameDeath(s: Db, id: Id)
    requires id in s.intents
    ensures ChallengeDead(s.(clock := s.clock), s.intents[id].row, s.clock) == ChallengeDead(s, s.intents[id].row, s.clock)
  {
  }
}
