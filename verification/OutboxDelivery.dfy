/** What a delivery comes to, said on the columns of the rows: exactly when it captures, and what it leaves
    otherwise. */
module OutboxDelivery {
  import opened Prelude
  import opened Ordering
  import opened OutboxModel
  import opened OutboxTransactions
  import opened OutboxInvariant
  import opened OutboxRuns
  import opened OutboxTheorems

  /** The newest attempt is over with its row; of the rest of the tables only the capture and the past may differ. */
  ghost predicate Ended(s: Db, t: Db, id: Id, state: State, code: Code, at: Time) {
    && id in s.intents && id in t.intents
    && var x := s.intents[id]; var y := t.intents[id]; var n := x.row.attemptCount;
    && n in x.attempts
    && y.row == x.row.(state := state, lastCode := code, lease := None, leaseUntil := None, readyAt := at + s.cfg.retrySeconds,
                       terminalAt := if state in {ProviderAccepted, Failed, Suppressed} then Some(at) else None)
    && y.attempts == x.attempts[n := Attempt(x.attempts[n].lease, Finished, Some(at), code)]
    && t == s.(clock := at, intents := s.intents[id := y], past := t.past)
  }

  /** A delivery succeeds, and captures, if and only if its lease is held and runs, the recipient is not barred, the
      payload is there and for the address that may be written to (the one under challenge, or the verified one and
      a qualified audience), and the backend raises nothing. The capture is of that very payload. */
  lemma DeliveredIff(s: Db, id: Id, lease: Id, now: Time, later: Time, e: Surroundings)
    requires Inv(s) && s.clock <= now <= later && id in s.intents
    ensures var (t, r) := Deliver(s, id, lease, now, later, e); var x := s.intents[id].row;
            r == Some(true) <==>
              && x.state == Queued && x.lease == Some(lease) && x.leaseUntil.Some? && now < x.leaseUntil.value
              && !e.barred && x.erasedAt.None? && x.recipient in s.addresses
              && (var a := s.addresses[x.recipient];
                  if x.verifies then a.challenge == x.challenge && a.digest.Some? && a.pending == x.payload.to
                                     && a.expiresAt.Some? && now < a.expiresAt.value
                  else a.verified == x.payload.to && x.payload.to != "" && e.audience == Qualifies)
              && e.fault == NoFault
    ensures var (t, r) := Deliver(s, id, lease, now, later, e); var x := s.intents[id].row;
            && (Captures(s, t, id) <==> r == Some(true))
            && (r == Some(true) ==> Ended(s, t, id, ProviderAccepted, CapturedLocal, later)
                                    && t.intents[id].capture == Some(Capture(MessageDigest(x.payload), e.stamp, x.payload)))
  {
    hide Inv; hide IntentOk; hide Highest;
    IntentOf(s, id);
    if s.intents[id].row.lease == Some(lease) { LeasedAttempt(s, id, lease); }
  }

  /** A held lease is carried by the newest attempt alone; nothing was captured yet. */
  lemma LeasedAttempt(s: Db, id: Id, lease: Id)
    requires Inv(s) && id in s.intents && s.intents[id].row.lease == Some(lease)
    ensures var i := s.intents[id]; var n := i.row.attemptCount;
            && n in i.attempts && i.attempts[n] == Attempt(lease, Claimed, None, NoCode) && i.capture == None
            && (set k | k in i.attempts && CarriedBy(i, lease, k)) == {n}
            && MessageDigest(i.row.payload) == i.row.deliveryDigest
  {
    hide Inv;
    IntentOf(s, id);
    CarrierIsNewest(s.cfg, id, s.intents[id], s.past);
  }

  /** Under the running lease the recipient decides. */
  lemma HeldDelivery(s: Db, id: Id, lease: Id, now: Time, later: Time, e: Surroundings)
    requires Inv(s) && id in s.intents
    requires var x := s.intents[id].row;
             x.state == Queued && x.lease == Some(lease) && x.leaseUntil.Some? && now < x.leaseUntil.value
    ensures var i := s.intents[id]; var n := i.row.attemptCount; var s0 := s.(clock := now);
            && n in i.attempts && i.attempts[n] == Attempt(lease, Claimed, None, NoCode) && i.capture == None
            && Deliver(s, id, lease, now, later, e) ==
               if Allowed(s, i.row, e, now) != Qualifies then (Refused(s0, id, n, Allowed(s, i.row, e, now), now), Some(false))
               else (Sent(s0, id, n, e, later), Some(Sent(s0, id, n, e, later).intents[id].row.state == ProviderAccepted))
  {
    hide Inv; hide Allowed; hide Sent; hide Refused; hide Highest;
    LeasedAttempt(s, id, lease);
    AllowedNow(s, id, e, now);
  }

  /** A delivery without the running lease changes nothing. */
  lemma LeaseIsNeeded(s: Db, id: Id, lease: Id, now: Time, later: Time, e: Surroundings)
    requires Inv(s) && id in s.intents
    requires var x := s.intents[id].row;
             x.state != Queued || x.lease != Some(lease) || x.leaseUntil.None? || x.leaseUntil.value <= now
    ensures Deliver(s, id, lease, now, later, e) == (s.(clock := now), Some(false))
  {
  }

  /** Under the running lease, a delivery that could not succeed even if the backend raised nothing sends nothing and
      closes the row: as failed exactly when the audience check of a notice raised, which it reaches only for the
      verified address of a recipient who is not barred; else as suppressed. */
  lemma RefusedDelivery(s: Db, id: Id, lease: Id, now: Time, later: Time, e: Surroundings)
    requires Inv(s) && s.clock <= now <= later && id in s.intents
    requires var x := s.intents[id].row;
             x.state == Queued && x.lease == Some(lease) && x.leaseUntil.Some? && now < x.leaseUntil.value
    requires Deliver(s, id, lease, now, later, e.(fault := NoFault)).1 != Some(true)
    ensures var (t, r) := Deliver(s, id, lease, now, later, e); var x := s.intents[id].row;
            var raised := !x.verifies && !e.barred && x.erasedAt.None? && x.recipient in s.addresses
                          && s.addresses[x.recipient].verified == x.payload.to != "" && e.audience == CheckRaises;
            && r == Some(false) && t.past == s.past && t.intents[id].capture == s.intents[id].capture
            && (raised ==> Ended(s, t, id, Failed, AudienceCheckFailed, now))
            && (!raised ==> Ended(s, t, id, Suppressed, AddressOrAudienceChanged, now))
  {
    hide Inv; hide IntentOk; hide Deliver; hide Sent;
    HeldDelivery(s, id, lease, now, later, e);
    HeldDelivery(s, id, lease, now, later, e.(fault := NoFault));
    SentIsAccepted(s, id, now, later, e.(fault := NoFault));
  }

  lemma SentIsAccepted(s: Db, id: Id, now: Time, later: Time, e: Surroundings)
    requires id in s.intents && s.intents[id].row.attemptCount in s.intents[id].attempts
    requires s.intents[id].capture == None && e.fault == NoFault
    ensures Sent(s.(clock := now), id, s.intents[id].row.attemptCount, e, later).intents[id].row.state == ProviderAccepted
  {
  }

  lemma SameAllowed(s: Db, row: Row, e: Surroundings, now: Time)
    ensures Allowed(s, row, e.(fault := NoFault), now) == Allowed(s, row, e, now)
  {
  }

  lemma LeaseIsNeededFirst(s: Db, id: Id, lease: Id, now: Time, later: Time, e: Surroundings)
    requires Inv(s) && id in s.intents && Deliver(s, id, lease, now, later, e).1 == Some(true)
    ensures var x := s.intents[id].row;
            x.state == Queued && x.lease == Some(lease) && x.leaseUntil.Some? && now < x.leaseUntil.value
  {
    hide Inv; hide Deliver;
    var x := s.intents[id].row;
    if x.state != Queued || x.lease != Some(lease) || x.leaseUntil.None? || x.leaseUntil.value <= now {
      LeaseIsNeeded(s, id, lease, now, later, e);
    }
  }

  /** A delivery that would succeed but for an exception of the backend leaves no capture, one send, and the row as the
      exception says: suppressed, uncertain, or, not accepted, back in the queue while budget is left. */
  lemma FailedDelivery(s: Db, id: Id, lease: Id, now: Time, later: Time, e: Surroundings)
    requires Inv(s) && s.clock <= now <= later && id in s.intents && e.fault != NoFault
    requires Deliver(s, id, lease, now, later, e.(fault := NoFault)).1 == Some(true)
    ensures var (t, r) := Deliver(s, id, lease, now, later, e); var x := s.intents[id].row;
            && r == Some(false) && t.intents[id].capture == None
            && t.past == s.past.(sends := s.past.sends + multiset{id})
            && match e.fault
               case RaisesSuppressed => Ended(s, t, id, Suppressed, BackendSuppressed, later)
               case RaisesOther => Ended(s, t, id, AcceptanceUncertain, AcceptanceUnknown, later)
               case _ => Ended(s, t, id, if x.attemptCount < s.cfg.maxAttempts then Queued else Failed, NotAccepted, later)
  {
    hide Inv; hide IntentOk; hide Deliver; hide Allowed;
    LeaseIsNeededFirst(s, id, lease, now, later, e.(fault := NoFault));
    HeldDelivery(s, id, lease, now, later, e);
    HeldDelivery(s, id, lease, now, later, e.(fault := NoFault));
    SameAllowed(s, s.intents[id].row, e, now);
  }
}
