/** What a claim takes and why it takes nothing, said on the columns of the rows and on the claims made before; and
    that every retry is made. */
module OutboxClaiming {
  import opened Prelude
  import opened Ordering
  import opened OutboxModel
  import opened OutboxTransactions
  import opened OutboxInvariant
  import opened OutboxRuns
  import opened OutboxTheorems
  import opened OutboxDelivery

  /** The row's challenge, if it has one, is the recipient's, unanswered, for the row's address and not expired. */
  predicate Answerable(s: Db, row: Row, now: Time) {
    row.challenge.Some? ==>
      && row.recipient in s.addresses
      && var a := s.addresses[row.recipient];
      && a.challenge == row.challenge && a.digest.Some? && a.pending == row.payload.to
      && a.expiresAt.Some? && now < a.expiresAt.value
  }

  /** The day's claims leave room for one more of the category. */
  predicate HasRoom(s: Db, c: Category, day: int) {
    && ClaimsOn(s.past, day, Essential) + ClaimsOn(s.past, day, Notice) < s.cfg.capacity
    && (c == Notice ==> ClaimsOn(s.past, day, Notice) < s.cfg.capacity - s.cfg.reserve)
  }

  /** The newest attempt was claimed and taken back unsent. */
  predicate TakenBack(i: Intent) { i.row.attemptCount in i.attempts && i.attempts[i.row.attemptCount].code == ClaimRecovered }

  /** The row as a claim leaves it: leased, under the number of an attempt that was taken back or the next one. */
  predicate TakenUp(i: Intent, j: Intent, lease: Id, until: Time) {
    && j.row == i.row.(state := Queued, lease := Some(lease), leaseUntil := Some(until),
                       attemptCount := i.row.attemptCount + if TakenBack(i) then 0 else 1)
    && j.attempts == i.attempts[j.row.attemptCount := Attempt(lease, Claimed, None, NoCode)] && j.capture == i.capture
  }

  // ---------------------------------------------------------------- what any claim does

  /** A granted claim took a waiting row whose challenge, if any, could still be answered, and no waiting row that is
      left goes before it. */
  lemma WorkTaken(s: Db, readings: nat -> Time, lease: Id)
    requires Inv(s) && lease !in s.past.slots && Monotone(readings, s.clock)
    ensures var (t, r) := Claim(s, readings, lease);
            r.Work? ==>
              && r.lease == lease && r.intent in s.intents && r.intent in t.intents
              && Waits(s.intents[r.intent].row, t.clock) && Answerable(s, s.intents[r.intent].row, t.clock)
              && TakenUp(s.intents[r.intent], t.intents[r.intent], lease, t.clock + s.cfg.leaseSeconds)
              && (forall j | j in t.intents && Waits(t.intents[j].row, t.clock) ::
                    GoesFirst(t.intents[r.intent].row, r.intent, t.intents[j].row, j))
              && HasRoom(s, s.intents[r.intent].row.category, Day(t.clock))
              && t.past.claims == s.past.claims + multiset{ClaimMade(Day(t.clock), s.intents[r.intent].row.category)}
  {
    hide Inv; hide Claim; hide Resumable; hide Judge; hide PassedOver;
    ClaimIsHonest(s, readings, lease);
    ClaimKeeps(s, readings, lease);
    var (t, r) := Claim(s, readings, lease);
    if r.Work? {
      TookWaiting(s, t, r.intent, lease);
      forall j | j in t.intents && Waits(t.intents[j].row, t.clock)
        ensures GoesFirst(t.intents[r.intent].row, r.intent, t.intents[j].row, j)
      {
        assert j in EligibleIds(t, t.clock) && j != r.intent;
      }
      RoomIs(s, t.clock);
    }
  }

  lemma TookWaiting(s: Db, t: Db, id: Id, lease: Id)
    requires Inv(s) && Took(s, t, id, lease)
    ensures Waits(s.intents[id].row, t.clock) && Answerable(s, s.intents[id].row, t.clock)
    ensures TakenUp(s.intents[id], t.intents[id], lease, t.clock + s.cfg.leaseSeconds)
  {
    hide QuotaOk; hide AddressesOk; hide KeysOk;
    UnsentIsTakenBack(s, id);
  }

  lemma UnsentIsTakenBack(s: Db, id: Id)
    requires Inv(s) && id in s.intents && s.intents[id].row.lease == None
    ensures Pending(s.intents[id]) <==> TakenBack(s.intents[id])
  {
    hide QuotaOk; hide AddressesOk; hide KeysOk;
    var i := s.intents[id];
    IntentOf(s, id);
    if i.row.attemptCount in i.attempts { assert AttemptOk(i, i.row.attemptCount); }
  }

  /** The day's counters are the claims made that day. */
  lemma RoomIs(s: Db, now: Time)
    requires Inv(s) && s.clock <= now
    ensures forall c :: HasRoom(s, c, Day(now)) <==> !Full(s.cfg, BucketOf(s, Day(now)), c)
  {
    hide IntentsOk; hide AddressesOk; hide KeysOk;
    assert Day(s.clock) <= Day(now);
    assert BucketOk(BucketOf(s, Day(now)), s.past, Day(now));
  }

  /** A claim that finds nothing leaves no waiting row that the day still has room for. */
  lemma NothingWaits(s: Db, readings: nat -> Time, lease: Id, id: Id)
    requires Inv(s) && lease !in s.past.slots && Monotone(readings, s.clock)
    ensures var (t, r) := Claim(s, readings, lease);
            r == NoWork && id in t.intents && Waits(t.intents[id].row, t.clock)
            ==> !HasRoom(t, t.intents[id].row.category, Day(t.clock))
  {
    hide Inv; hide Claim; hide PassedOver;
    ClaimIsHonest(s, readings, lease);
    ClaimKeeps(s, readings, lease);
    var (t, r) := Claim(s, readings, lease);
    if r == NoWork && id in t.intents && Waits(t.intents[id].row, t.clock) {
      assert id in EligibleIds(t, t.clock) && HonestNothing(t);
      RoomIs(t, t.clock);
    }
  }

  /** Besides the row it takes, a claim closes rows whose challenge can no longer be answered, and nothing else. */
  lemma OthersPassedOver(s: Db, readings: nat -> Time, lease: Id, id: Id)
    requires Inv(s) && lease !in s.past.slots && Monotone(readings, s.clock) && id in s.intents
    ensures var (t, r) := Claim(s, readings, lease);
            id in t.intents
            && (t.intents[id] == s.intents[id] || (r.Work? && r.intent == id)
                || exists now :: s.intents[id].row.readyAt <= now <= t.clock && !Answerable(s, s.intents[id].row, now)
                                 && t.intents[id] == s.intents[id].(row := s.intents[id].row.(state := Suppressed,
                                                       lastCode := ChallengeEnded, terminalAt := Some(now))))
  {
    hide Inv; hide ClaimFrom; hide HonestNothing; hide Took;
    ClaimIsHonest(s, readings, lease);
    ClaimKeeps(s, readings, lease);
    var (t, r) := Claim(s, readings, lease);
    assert id in t.intents;
    if r != Misconfigured && !(r.Work? && r.intent == id) { assert PassedOver(s, t, id); }
  }

  // ---------------------------------------------------------------- which row a claim takes

  /** The row waits and goes before every other row that waits. */
  ghost predicate FirstWaiting(s: Db, id: Id, now: Time) {
    && id in s.intents && Waits(s.intents[id].row, now)
    && forall j | j in s.intents && j != id && Waits(s.intents[j].row, now) :: GoesFirst(s.intents[id].row, id, s.intents[j].row, j)
  }

  /** With a lawful reserve, room on the day and an answerable challenge, a claim takes exactly the first waiting row. */
  lemma ClaimTakesFirst(s: Db, readings: nat -> Time, lease: Id, id: Id)
    requires Inv(s) && lease !in s.past.slots && Monotone(readings, s.clock) && s.cfg.reserve <= s.cfg.capacity
    requires FirstWaiting(s, id, readings(0)) && Answerable(s, s.intents[id].row, readings(0))
    requires HasRoom(s, s.intents[id].row.category, Day(readings(0)))
    ensures var (t, r) := Claim(s, readings, lease);
            && r == Work(id, lease) && t.intents.Keys == s.intents.Keys && t.clock == readings(0)
            && TakenUp(s.intents[id], t.intents[id], lease, t.clock + s.cfg.leaseSeconds)
            && (forall j | j in s.intents && j != id :: t.intents[j] == s.intents[j])
  {
    hide Inv; hide ClaimFrom; hide ClaimTurn; hide GrantClaim; hide FirstWaiting; hide Answerable; hide HasRoom; hide TakenUp;
    var now := readings(0);
    var s0 := s.(clock := now);
    TickKeeps(s, now);
    FirstWaits(s, id, now);
    FirstIsGranted(s0, id);
    TurnGrants(s0, id, lease);
    ClaimTurns(s, readings, 0, lease);
    assert ClaimTurn(s, now, lease) == ClaimTurn(s0, now, lease) by { ClockIsRead(s, now, lease); }
    GrantTakes(s0, id, lease);
  }

  lemma ClockIsRead(s: Db, now: Time, lease: Id)
    ensures ClaimTurn(s, now, lease) == ClaimTurn(s.(clock := now), now, lease)
  {
    assert s.(clock := now).(clock := now) == s.(clock := now);
  }

  lemma FirstWaits(s: Db, id: Id, now: Time)
    requires FirstWaiting(s, id, now) && Answerable(s, s.intents[id].row, now) && HasRoom(s, s.intents[id].row.category, Day(now))
    ensures var s0 := s.(clock := now);
            && FirstWaiting(s0, id, now) && Answerable(s0, s0.intents[id].row, now)
            && HasRoom(s0, s0.intents[id].row.category, Day(now))
  {
  }

  lemma FirstIsGranted(s: Db, id: Id)
    requires Inv(s) && FirstWaiting(s, id, s.clock) && Answerable(s, s.intents[id].row, s.clock)
    requires HasRoom(s, s.intents[id].row.category, Day(s.clock)) && s.cfg.reserve <= s.cfg.capacity
    ensures id in EligibleIds(s, s.clock) && First(EligibleIds(s, s.clock), ClaimRank(s.intents)) == id
    ensures Judge(s, s.intents[id], s.clock) == Grant
  {
    hide Inv; hide Resumable; hide HasRoom; hide Full; hide BucketOf;
    RoomIs(s, s.clock);
    NeverExhausted(s, id, s.clock);
    assert id in EligibleIds(s, s.clock);
    var m := First(EligibleIds(s, s.clock), ClaimRank(s.intents));
    assert Before(ClaimRank(s.intents)(m), ClaimRank(s.intents)(id));
    assert Waits(s.intents[m].row, s.clock);
  }

  lemma TurnGrants(s: Db, id: Id, lease: Id)
    requires id in EligibleIds(s, s.clock) && First(EligibleIds(s, s.clock), ClaimRank(s.intents)) == id
    requires Judge(s, s.intents[id], s.clock) == Grant
    ensures ClaimTurn(s, s.clock, lease) == (GrantClaim(s, id, lease, s.clock), Some(Work(id, lease)))
  {
    hide Judge; hide GrantClaim; hide First; hide EligibleIds;
    assert s.(clock := s.clock) == s;
  }

  lemma GrantTakes(s: Db, id: Id, lease: Id)
    requires Inv(s) && id in EligibleIds(s, s.clock) && First(EligibleIds(s, s.clock), ClaimRank(s.intents)) == id
    requires Judge(s, s.intents[id], s.clock) == Grant
    ensures var t := GrantClaim(s, id, lease, s.clock);
            && t.intents.Keys == s.intents.Keys && t.clock == s.clock
            && TakenUp(s.intents[id], t.intents[id], lease, t.clock + s.cfg.leaseSeconds)
            && (forall j | j in s.intents && j != id :: t.intents[j] == s.intents[j])
  {
    hide Inv; hide Judge; hide Leased; hide TakenUp; hide Took;
    GrantEffect(s, id, lease);
    TookWaiting(s, GrantClaim(s, id, lease, s.clock), id, lease);
  }

  // ---------------------------------------------------------------- retries

  /** The tables when a row comes up for its retry: whoever acted since has left the row alone. */
  ghost predicate ComesUp(u: Db, v: Db, id: Id, readings: nat -> Time, lease: Id) {
    && Inv(v) && v.cfg == u.cfg && v.cfg.reserve <= v.cfg.capacity && id in u.intents && id in v.intents
    && v.intents[id] == u.intents[id] && lease !in v.past.slots && Monotone(readings, v.clock)
    && (forall j | j in v.intents && j != id && Waits(v.intents[j].row, readings(0)) ::
          GoesFirst(v.intents[id].row, id, v.intents[j].row, j))
    && Answerable(v, v.intents[id].row, readings(0)) && HasRoom(v, v.intents[id].row.category, Day(readings(0)))
  }

  lemma Retried(u: Db, v: Db, id: Id, readings: nat -> Time, lease: Id)
    requires ComesUp(u, v, id, readings, lease) && Waits(u.intents[id].row, readings(0))
    ensures var (t, r) := Claim(v, readings, lease);
            && r == Work(id, lease) && id in t.intents
            && t.intents[id].row.attemptCount == u.intents[id].row.attemptCount + if TakenBack(u.intents[id]) then 0 else 1
  {
    hide Inv; hide Claim; hide Answerable; hide HasRoom; hide TakenBack; hide GoesFirst;
    ClaimTakesFirst(v, readings, lease, id);
  }

  /** A message the backend did not accept is tried again, with budget, under the next number, once it is its turn at
      or after the retry time. */
  lemma RetriedAfterRefusal(s: Db, id: Id, lease: Id, now: Time, later: Time, e: Surroundings, v: Db, readings: nat -> Time,
                            next: Id)
    requires Inv(s) && s.clock <= now <= later && id in s.intents && e.fault == RaisesNotAccepted
    requires Deliver(s, id, lease, now, later, e.(fault := NoFault)).1 == Some(true)
    requires s.intents[id].row.attemptCount < s.cfg.maxAttempts
    requires ComesUp(Deliver(s, id, lease, now, later, e).0, v, id, readings, next)
    requires later + s.cfg.retrySeconds <= readings(0)
    ensures var (t, r) := Claim(v, readings, next);
            r == Work(id, next) && id in t.intents && t.intents[id].row.attemptCount == s.intents[id].row.attemptCount + 1
  {
    hide Inv; hide Deliver; hide Claim; hide ComesUp;
    FailedDelivery(s, id, lease, now, later, e);
    Retried(Deliver(s, id, lease, now, later, e).0, v, id, readings, next);
  }

  /** A lease that ran out is taken back, and its attempt resumed under its own number, at once. */
  lemma RetriedAfterReclaim(s: Db, id: Id, caps: Capabilities, answer: Lookup, now: Time, v: Db, readings: nat -> Time, next: Id)
    requires Inv(s) && s.clock <= now && id in s.intents
    requires var x := s.intents[id].row; x.lease.Some? && x.leaseUntil.Some? && x.leaseUntil.value <= now
    requires ComesUp(Recover(s, id, caps, answer, now).0, v, id, readings, next) && now <= readings(0)
    ensures var (t, r) := Claim(v, readings, next);
            r == Work(id, next) && id in t.intents && t.intents[id].row.attemptCount == s.intents[id].row.attemptCount
  {
    hide Inv; hide Claim; hide ComesUp; hide Recover; hide TakenBack;
    ReclaimedRow(s, id, caps, answer, now);
    Retried(Recover(s, id, caps, answer, now).0, v, id, readings, next);
  }

  lemma ReclaimedRow(s: Db, id: Id, caps: Capabilities, answer: Lookup, now: Time)
    requires Inv(s) && s.clock <= now && id in s.intents
    requires var x := s.intents[id].row; x.lease.Some? && x.leaseUntil.Some? && x.leaseUntil.value <= now
    ensures var t := Recover(s, id, caps, answer, now).0; var x := s.intents[id].row;
            && id in t.intents && TakenBack(t.intents[id]) && t.intents[id].capture == s.intents[id].capture
            && t.intents[id].row == x.(lastCode := ClaimRecovered, lease := None, leaseUntil := None, terminalAt := None,
                                       readyAt := now) && x.state == Queued
  {
    hide Inv; hide RecoverIntent;
    RecoverKeeps(s, id, caps, answer, now);
    var x := s.intents[id];
    IntentOf(s, id);
    CarrierIsNewest(s.cfg, id, x, s.past);
    ExpiredRecovers(s.cfg, id, x, caps, answer, now, s.past);
    UnsentIsTakenBack(Recover(s, id, caps, answer, now).0, id);
  }

  /** A row that recovery found uncertain and certainly not sent is tried again under the next number. */
  lemma RetriedAfterRequeue(s: Db, id: Id, caps: Capabilities, now: Time, v: Db, readings: nat -> Time, next: Id)
    requires Inv(s) && s.clock <= now && id in s.intents && s.intents[id].row.state == AcceptanceUncertain
    requires caps.authoritativeAbsence && caps.localCapture && s.intents[id].row.attemptCount < s.cfg.maxAttempts
    requires ComesUp(Recover(s, id, caps, Absent, now).0, v, id, readings, next) && now + s.cfg.retrySeconds <= readings(0)
    ensures var (t, r) := Claim(v, readings, next);
            r == Work(id, next) && id in t.intents && t.intents[id].row.attemptCount == s.intents[id].row.attemptCount + 1
  {
    hide Inv; hide Claim; hide ComesUp; hide Recover; hide TakenBack;
    RequeuedRow(s, id, caps, now);
    Retried(Recover(s, id, caps, Absent, now).0, v, id, readings, next);
  }

  lemma RequeuedRow(s: Db, id: Id, caps: Capabilities, now: Time)
    requires Inv(s) && s.clock <= now && id in s.intents && s.intents[id].row.state == AcceptanceUncertain
    requires caps.authoritativeAbsence && caps.localCapture && s.intents[id].row.attemptCount < s.cfg.maxAttempts
    ensures var t := Recover(s, id, caps, Absent, now).0; var x := s.intents[id].row;
            && id in t.intents && !TakenBack(t.intents[id])
            && t.intents[id].row == x.(state := Queued, lastCode := LeaseRecovered, lease := None, leaseUntil := None,
                                       terminalAt := None, readyAt := now + s.cfg.retrySeconds)
  {
    hide Inv; hide RecoverIntent; hide IntentOk;
    IntentOf(s, id);
    ReconciledRow(s.cfg, id, s.intents[id], caps, Absent, now, s.past);
  }
}
