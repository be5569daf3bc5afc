/** What every committed state of the outbox satisfies, and the proof that each transaction keeps it. */
module OutboxInvariant {
  import opened Prelude
  import opened Ordering
  import opened OutboxModel
  import opened OutboxTransactions

  // ---------------------------------------------------------------- one intent

  /** The newest attempt has not reached the backend: it is claimed, or its claim was recovered unsent. */
  predicate Pending(i: Intent) {
    var n := i.row.attemptCount;
    n in i.attempts && (i.attempts[n].phase == Claimed || i.attempts[n].code == ClaimRecovered)
  }

  predicate LeaseOk(i: Intent) {
    var row := i.row; var n := row.attemptCount;
    && (row.lease.Some? <==> row.leaseUntil.Some?)
    && (row.lease.Some? ==> row.state == Queued && n in i.attempts
                            && i.attempts[n] == Attempt(row.lease.value, Claimed, None, NoCode))
  }

  predicate AttemptOk(i: Intent, k: nat)
    requires k in i.attempts
  {
    var a := i.attempts[k];
    && 1 <= k <= i.row.attemptCount
    && a.phase != Started
    && (a.phase == Claimed ==> k == i.row.attemptCount && i.row.lease == Some(a.lease))
    && (a.phase == Finished ==> a.finishedAt.Some?)
    && (a.code == ClaimRecovered ==> k == i.row.attemptCount)
  }

  predicate AttemptsOk(i: Intent) {
    var row := i.row; var n := row.attemptCount;
    && (forall k | k in i.attempts :: AttemptOk(i, k))
    && (!Terminal(row.state) ==> forall k | 1 <= k <= n :: k in i.attempts)
    && (row.state == Requested ==> n == 0)
    && (row.state in {Queued, AcceptanceUncertain} ==> 1 <= n)
  }

  /** Where a row without a lease stands: it was recovered unsent, or it has budget left, or it is uncertain. */
  predicate WaitingOk(cfg: Settings, i: Intent) {
    var row := i.row; var n := row.attemptCount;
    && n <= cfg.maxAttempts
    && (row.state == Queued && row.lease == None && n in i.attempts ==>
          i.attempts[n].phase == Finished && i.attempts[n].code in {NotAccepted, ClaimRecovered, LeaseRecovered}
          && (n < cfg.maxAttempts || i.attempts[n].code == ClaimRecovered))
    && (row.state == AcceptanceUncertain && n in i.attempts ==>
          i.attempts[n].phase == Finished && i.attempts[n].code == AcceptanceUnknown)
  }

  predicate PayloadOk(i: Intent) {
    var row := i.row;
    && (row.terminalAt.Some? <==> Terminal(row.state))
    && (row.erasedAt.Some? ==> Terminal(row.state))
    && (row.erasedAt.None? ==> MessageDigest(row.payload) == row.deliveryDigest)
    && (row.verifies <==> row.challenge.Some?)
    && (i.capture.Some? ==> row.state == ProviderAccepted && i.capture.value.digest == row.deliveryDigest)
    && (row.erasedAt.Some? ==> row.payload == ERASED)
    && (i.capture.Some? ==> i.capture.value.content == row.payload)
  }

  /** The intent against the past: what was sent and captured, and which leases and challenge were drawn for it. */
  predicate LedgerOk(id: Id, i: Intent, past: History) {
    && (!Terminal(i.row.state) ==> past.sends[id] == i.row.attemptCount - (if Pending(i) then 1 else 0))
    && past.sends[id] <= i.row.attemptCount
    && past.captures[id] <= 1
    && (past.captures[id] > 0 ==> i.row.state == ProviderAccepted)
    && (i.capture.Some? ==> past.captures[id] == 1)
    && (forall k | k in i.attempts :: i.attempts[k].lease in past.slots && past.slots[i.attempts[k].lease] == LeaseOf(id, k))
    && (i.row.challenge.Some? ==> i.row.challenge.value in past.slots)
  }

  predicate IntentOk(cfg: Settings, id: Id, i: Intent, past: History) {
    LeaseOk(i) && AttemptsOk(i) && WaitingOk(cfg, i) && PayloadOk(i) && LedgerOk(id, i, past)
  }

  ghost predicate IntentsOk(s: Db) {
    && (forall id | id in s.intents :: IntentOk(s.cfg, id, s.intents[id], s.past))
    && (forall id | id !in s.intents :: s.past.sends[id] == 0 && s.past.captures[id] == 0)
  }

  /** The unique constraint on request keys. */
  ghost predicate KeysOk(s: Db) {
    forall i, j | i in s.intents && j in s.intents && s.intents[i].row.key == s.intents[j].row.key :: i == j
  }

  // ---------------------------------------------------------------- capacity

  function ClaimsOn(past: History, day: int, c: Category): nat { past.claims[ClaimMade(day, c)] }

  predicate BucketOk(b: Bucket, past: History, day: int) {
    b.total == ClaimsOn(past, day, Essential) + ClaimsOn(past, day, Notice) && b.notice == ClaimsOn(past, day, Notice)
  }

  ghost predicate QuotaOk(s: Db) {
    && (forall d | d in s.buckets :: BucketOk(s.buckets[d], s.past, d))
    && (forall d | d !in s.buckets && Day(s.clock) <= d :: BucketOk(Bucket(0, 0), s.past, d))
    && (forall d :: ClaimsOn(s.past, d, Essential) + ClaimsOn(s.past, d, Notice) <= s.cfg.capacity)
    && (forall d :: ClaimsOn(s.past, d, Notice) > 0 ==> ClaimsOn(s.past, d, Notice) <= s.cfg.capacity - s.cfg.reserve)
  }

  // ---------------------------------------------------------------- challenges

  /** How many of the issue times fall on a day. */
  function CountDay(ts: seq<Time>, d: int): nat {
    if ts == [] then 0 else CountDay(ts[..|ts| - 1], d) + if Day(ts[|ts| - 1]) == d then 1 else 0
  }

  /** Consecutive issues are at least the resend interval apart. */
  ghost predicate Spaced(cfg: Settings, ts: seq<Time>) {
    forall x, y | 0 <= x < y < |ts| :: ts[x] + cfg.resendSeconds <= ts[y]
  }

  ghost predicate IssuesOk(cfg: Settings, ts: seq<Time>, a: AddressRecord, clock: Time) {
    && Spaced(cfg, ts)
    && (forall d :: CountDay(ts, d) <= cfg.verificationsPerDay)
    && (ts == [] ==> a.lastRequestedAt == None && a.requestDay == None)
    && (ts != [] ==>
          var last := ts[|ts| - 1];
          && last <= clock && a.lastRequestedAt == Some(last) && a.requestDay == Some(Day(last))
          && a.requestsToday == CountDay(ts, Day(last))
          && (forall d | Day(last) < d :: CountDay(ts, d) == 0))
  }

  predicate ChallengeOk(p: Id, a: AddressRecord, past: History) {
    && (a.digest.Some? ==> a.challenge.Some? && a.expiresAt.Some?)
    && (a.expiresAt.Some? ==> a.challenge.Some?)
    && (a.challenge.Some? ==> a.challenge.value in past.slots && past.slots[a.challenge.value] == ChallengeOf(p)
                              && past.verified[a.challenge.value] == 0)
  }

  ghost predicate AddressesOk(s: Db) {
    && (forall p | p in s.addresses :: ChallengeOk(p, s.addresses[p], s.past))
    && (forall p | p in s.addresses :: IssuesOk(s.cfg, s.Issues(p), s.addresses[p], s.clock))
    && (forall p | p !in s.addresses :: s.Issues(p) == [])
    && (forall c :: s.past.verified[c] <= 1 && (s.past.verified[c] > 0 ==> c in s.past.slots))
  }

  ghost predicate Inv(s: Db) { IntentsOk(s) && KeysOk(s) && QuotaOk(s) && AddressesOk(s) }

  lemma EmptyOk(cfg: Settings, start: Time)
    ensures Inv(EmptyDb(cfg, start))
  {
  }

  // ---------------------------------------------------------------- how an intent may change

  /** What no transaction may do to a stored intent. */
  ghost predicate Evolves(i: Intent, j: Intent) {
    && j.row.key == i.row.key && j.row.fingerprint == i.row.fingerprint
    && j.row.deliveryDigest == i.row.deliveryDigest && j.row.recipient == i.row.recipient
    && j.row.category == i.row.category && j.row.challenge == i.row.challenge
    && i.row.attemptCount <= j.row.attemptCount
    && (Terminal(i.row.state) ==> j.row.state == i.row.state && j.row.terminalAt == i.row.terminalAt
                                  && j.row.attemptCount == i.row.attemptCount)
    && (i.row.erasedAt.Some? ==> j.row.erasedAt == i.row.erasedAt)
    && (j.row.payload != i.row.payload ==> j.row.payload == ERASED && j.row.erasedAt.Some?)
  }

  /** A past only grows. */
  ghost predicate Grows(a: History, b: History) {
    && a.claims <= b.claims && a.sends <= b.sends && a.captures <= b.captures && a.verified <= b.verified
    && (forall l | l in a.slots :: l in b.slots && b.slots[l] == a.slots[l])
  }

  /** What holds between the states before and after any transaction. */
  ghost predicate Kept(s: Db, t: Db) {
    && t.cfg == s.cfg && s.clock <= t.clock
    && Grows(s.past, t.past)
    && (forall id | id in s.intents :: id in t.intents && Evolves(s.intents[id], t.intents[id]))
    && (forall id | id in t.intents && t.intents[id].row.lease.Some? ::
          (id in s.intents && t.intents[id].row.lease == s.intents[id].row.lease
                           && t.intents[id].row.leaseUntil == s.intents[id].row.leaseUntil)
          || t.intents[id].row.lease.value !in s.past.slots)
  }

  lemma KeptTransitive(s: Db, t: Db, u: Db)
    requires Kept(s, t) && Kept(t, u)
    ensures Kept(s, u)
  {
  }

  // ---------------------------------------------------------------- frames

  /** Intents and what is remembered about them are as before; at most more identifiers were drawn. */
  lemma IntentsFrame(s: Db, t: Db)
    requires IntentsOk(s) && t.cfg == s.cfg && t.intents == s.intents
    requires t.past.sends == s.past.sends && t.past.captures == s.past.captures && Grows(s.past, t.past)
    ensures IntentsOk(t)
  {
    hide LeaseOk; hide AttemptsOk; hide WaitingOk; hide PayloadOk; hide Pending;
  }

  lemma AddressesFrame(s: Db, t: Db)
    requires AddressesOk(s) && t.cfg == s.cfg && t.addresses == s.addresses && s.clock <= t.clock
    requires t.past.verified == s.past.verified && t.past.issues == s.past.issues && Grows(s.past, t.past)
    ensures AddressesOk(t)
  {
    hide Spaced; hide CountDay;
    assert forall p :: t.Issues(p) == s.Issues(p);
    forall p | p in t.addresses ensures ChallengeOk(p, t.addresses[p], t.past) {
      assert ChallengeOk(p, s.addresses[p], s.past);
    }
    forall p | p in t.addresses ensures IssuesOk(t.cfg, t.Issues(p), t.addresses[p], t.clock) {
      assert IssuesOk(s.cfg, s.Issues(p), s.addresses[p], s.clock);
    }
  }

  lemma QuotaFrame(s: Db, t: Db)
    requires QuotaOk(s) && t.cfg == s.cfg && t.buckets == s.buckets && s.clock <= t.clock
    requires t.past.claims == s.past.claims
    ensures QuotaOk(t)
  {
    assert forall d, c :: ClaimsOn(t.past, d, c) == ClaimsOn(s.past, d, c);
  }

  lemma KeysFrame(s: Db, t: Db)
    requires KeysOk(s) && t.intents.Keys <= s.intents.Keys
    requires forall id | id in t.intents :: t.intents[id].row.key == s.intents[id].row.key
    ensures KeysOk(t)
  {
  }

  /** Nothing but the clock and, perhaps, the capacity rows changed. */
  lemma SameIntentsKept(s: Db, t: Db)
    requires t.cfg == s.cfg && t.intents == s.intents && s.clock <= t.clock && Grows(s.past, t.past)
    ensures Kept(s, t)
  {
  }

  /** Time passing breaks nothing. */
  lemma TickKeeps(s: Db, now: Time)
    requires Inv(s) && s.clock <= now
    ensures Inv(s.(clock := now)) && Kept(s, s.(clock := now))
  {
    hide IntentsOk; hide KeysOk; hide QuotaOk; hide AddressesOk; hide Kept;
    var t := s.(clock := now);
    IntentsFrame(s, t); AddressesFrame(s, t); QuotaFrame(s, t); KeysFrame(s, t); SameIntentsKept(s, t);
  }

  /** Only one intent changed, and what is remembered about the others did not. */
  ghost predicate OneChanged(s: Db, t: Db, id: Id) {
    && id in s.intents && t.cfg == s.cfg && t.intents.Keys == s.intents.Keys
    && (forall j | j in s.intents && j != id :: t.intents[j] == s.intents[j])
    && (forall j | j != id :: t.past.sends[j] == s.past.sends[j] && t.past.captures[j] == s.past.captures[j])
    && Grows(s.past, t.past)
  }

  lemma OneIntentOk(s: Db, t: Db, id: Id)
    requires IntentsOk(s) && OneChanged(s, t, id) && IntentOk(t.cfg, id, t.intents[id], t.past)
    ensures IntentsOk(t)
  {
    hide LeaseOk; hide AttemptsOk; hide WaitingOk; hide PayloadOk; hide Pending;
    forall j | j in t.intents ensures IntentOk(t.cfg, j, t.intents[j], t.past) {
      if j != id { assert IntentOk(s.cfg, j, s.intents[j], s.past); }
    }
  }

  /** A lease held afterwards was held before or is a fresh identifier. */
  ghost predicate LeaseSource(i: Intent, j: Intent, past: History) {
    j.row.lease.Some? ==> (j.row.lease == i.row.lease && j.row.leaseUntil == i.row.leaseUntil)
                          || j.row.lease.value !in past.slots
  }

  lemma OneIntentKept(s: Db, t: Db, id: Id)
    requires OneChanged(s, t, id) && s.clock <= t.clock
    requires Evolves(s.intents[id], t.intents[id]) && LeaseSource(s.intents[id], t.intents[id], s.past)
    ensures Kept(s, t)
  {
  }

  /** A transaction on one intent that draws nothing and touches neither capacity nor addresses. */
  lemma OneIntentKeeps(s: Db, t: Db, id: Id)
    requires Inv(s) && OneChanged(s, t, id) && s.clock <= t.clock
    requires t.buckets == s.buckets && t.addresses == s.addresses && t.past.claims == s.past.claims
    requires t.past.verified == s.past.verified && t.past.issues == s.past.issues
    requires IntentOk(t.cfg, id, t.intents[id], t.past)
    requires Evolves(s.intents[id], t.intents[id]) && LeaseSource(s.intents[id], t.intents[id], s.past)
    ensures Inv(t) && Kept(s, t)
  {
    hide IntentsOk; hide KeysOk; hide QuotaOk; hide AddressesOk; hide Kept; hide IntentOk; hide LeaseSource;
    OneIntentOk(s, t, id); AddressesFrame(s, t); QuotaFrame(s, t); KeysFrame(s, t); OneIntentKept(s, t, id);
  }

  // ---------------------------------------------------------------- claim

  ghost predicate Monotone(readings: nat -> Time, start: Time) {
    start <= readings(0) && forall a: nat, b: nat | a <= b :: readings(a) <= readings(b)
  }

  lemma ClosedOk(cfg: Settings, id: Id, i: Intent, state: State, code: Code, now: Time, past: History)
    requires IntentOk(cfg, id, i, past) && Open(i) && state in {Failed, Suppressed}
    ensures IntentOk(cfg, id, Close(i, state, code, now), past) && Evolves(i, Close(i, state, code, now))
  {
    var j := Close(i, state, code, now);
    forall k | k in j.attempts ensures AttemptOk(j, k) { assert AttemptOk(i, k); }
  }

  lemma CloseKeeps(s: Db, id: Id, state: State, code: Code, now: Time)
    requires Inv(s) && id in s.intents && Open(s.intents[id]) && state in {Failed, Suppressed} && s.clock <= now
    ensures var t := Put(s, id, Close(s.intents[id], state, code, now)).(clock := now); Inv(t) && Kept(s, t)
  {
    hide Inv; hide Kept; hide IntentOk;
    var t := Put(s, id, Close(s.intents[id], state, code, now)).(clock := now);
    IntentOf(s, id);
    ClosedOk(s.cfg, id, s.intents[id], state, code, now, s.past);
    OneIntentKeeps(s, t, id);
  }

  lemma IntentOf(s: Db, id: Id)
    requires Inv(s) && id in s.intents
    ensures IntentOk(s.cfg, id, s.intents[id], s.past)
  {
  }

  /** The newest attempt of an unfinished intent carries the row's attempt count. */
  lemma LatestIsCount(i: Intent)
    requires AttemptsOk(i) && !Terminal(i.row.state)
    ensures i.row.attemptCount >= 1 ==> Latest(i) == Some(i.row.attemptCount)
    ensures i.row.attemptCount == 0 ==> Latest(i) == None
  {
    if i.row.attemptCount >= 1 {
      assert i.row.attemptCount in i.attempts.Keys;
    }
    assert forall k | k in i.attempts :: AttemptOk(i, k);
  }

  /** A granted claim takes a fresh lease for a new attempt, or for the attempt whose claim was recovered. */
  lemma LeasedOk(cfg: Settings, id: Id, i: Intent, lease: Id, now: Time, a: History, b: History)
    requires IntentOk(cfg, id, i, a) && Open(i) && lease !in a.slots
    requires i.row.attemptCount < cfg.maxAttempts || Resumable(i)
    requires b.sends == a.sends && b.captures == a.captures
    requires b.slots == a.slots[lease := LeaseOf(id, Leased(cfg, i, lease, now).row.attemptCount)]
    ensures IntentOk(cfg, id, Leased(cfg, i, lease, now), b)
    ensures Evolves(i, Leased(cfg, i, lease, now))
  {
    LatestIsCount(i);
    var j := Leased(cfg, i, lease, now);
    var n := j.row.attemptCount;
    assert j.attempts[n] == Attempt(lease, Claimed, None, NoCode);
    forall k | k in j.attempts ensures AttemptOk(j, k) {
      if k != n { assert AttemptOk(i, k); }
    }
    assert Resumable(i) ==> Pending(i);
    if !Resumable(i) && i.row.attemptCount in i.attempts { assert AttemptOk(i, i.row.attemptCount); }
  }

  lemma GrantKeeps(s: Db, id: Id, lease: Id)
    requires Inv(s) && id in s.intents && Open(s.intents[id]) && lease !in s.past.slots
    requires Judge(s, s.intents[id], s.clock) == Grant
    ensures Inv(GrantClaim(s, id, lease, s.clock)) && Kept(s, GrantClaim(s, id, lease, s.clock))
  {
    hide IntentsOk; hide KeysOk; hide QuotaOk; hide AddressesOk; hide Kept;
    hide Judge; hide Leased; hide IntentOk; hide Evolves;
    var i := s.intents[id];
    var t := GrantClaim(s, id, lease, s.clock);
    GrantHasBudget(s, i);
    IntentOf(s, id);
    LeasedOk(s.cfg, id, i, lease, s.clock, s.past, t.past);
    LeasedRow(s.cfg, i, lease, s.clock);
    OneIntentOk(s, t, id); KeysFrame(s, t); AddressesFrame(s, t);
    GrantKeepsQuota(s, id, lease);
    OneIntentKept(s, t, id);
  }

  lemma GrantHasBudget(s: Db, i: Intent)
    requires Judge(s, i, s.clock) == Grant
    ensures i.row.attemptCount < s.cfg.maxAttempts || Resumable(i)
  {
  }

  lemma LeasedRow(cfg: Settings, i: Intent, lease: Id, now: Time)
    ensures Leased(cfg, i, lease, now).row.lease == Some(lease)
    ensures Leased(cfg, i, lease, now).row.key == i.row.key
  {
  }

  lemma GrantKeepsQuota(s: Db, id: Id, lease: Id)
    requires QuotaOk(s) && id in s.intents && Judge(s, s.intents[id], s.clock) == Grant
    ensures QuotaOk(GrantClaim(s, id, lease, s.clock))
  {
    var t := GrantClaim(s, id, lease, s.clock);
    var day := Day(s.clock);
    var c := s.intents[id].row.category;
    assert forall d, k :: ClaimsOn(t.past, d, k) == ClaimsOn(s.past, d, k) + if d == day && k == c then 1 else 0;
    assert BucketOk(BucketOf(s, day), s.past, day);
    assert BucketOk(t.buckets[day], t.past, day);
  }

  lemma {:induction false} ClaimFromKeeps(s: Db, readings: nat -> Time, k: nat, lease: Id)
    requires Inv(s) && lease !in s.past.slots && s.clock <= readings(k)
    requires forall a: nat, b: nat | a <= b :: readings(a) <= readings(b)
    ensures Inv(ClaimFrom(s, readings, k, lease).0) && Kept(s, ClaimFrom(s, readings, k, lease).0)
    decreases |OpenIds(s)|, 1
  {
    hide Inv; hide Kept; hide Judge; hide Open;
    var now := readings(k);
    var s0 := s.(clock := now);
    TickKeeps(s, now);
    if EligibleIds(s0, now) != {} {
      var id := First(EligibleIds(s0, now), ClaimRank(s0.intents));
      var i := s0.intents[id];
      match Judge(s0, i, now)
      case ChallengeOver =>
        ClosedThenRest(s0, id, Suppressed, ChallengeEnded, readings, k, lease);
        KeptTransitive(s, s0, ClaimFrom(s, readings, k, lease).0);
      case BudgetSpent =>
        ClosedThenRest(s0, id, Failed, AttemptsExhausted, readings, k, lease);
        KeptTransitive(s, s0, ClaimFrom(s, readings, k, lease).0);
      case ReserveTooLarge =>
      case NoCapacity =>
        BucketRowKeeps(s0, Day(now));
        KeptTransitive(s, s0, ClaimFrom(s, readings, k, lease).0);
      case Grant =>
        GrantKeeps(s0, id, lease);
        KeptTransitive(s, s0, GrantClaim(s0, id, lease, now));
    }
  }

  /** Creating today's empty capacity row says nothing new. */
  lemma BucketRowKeeps(s: Db, day: int)
    requires Inv(s) && day == Day(s.clock)
    ensures var t := s.(buckets := s.buckets[day := BucketOf(s, day)]); Inv(t) && Kept(s, t)
  {
    hide IntentsOk; hide KeysOk; hide AddressesOk; hide Kept;
    var t := s.(buckets := s.buckets[day := BucketOf(s, day)]);
    IntentsFrame(s, t); AddressesFrame(s, t); KeysFrame(s, t); SameIntentsKept(s, t);
    assert BucketOk(BucketOf(s, day), s.past, day);
  }

  lemma ClosedThenRest(s: Db, id: Id, state: State, code: Code, readings: nat -> Time, k: nat, lease: Id)
    requires Inv(s) && lease !in s.past.slots && id in s.intents && Open(s.intents[id]) && state in {Failed, Suppressed}
    requires s.clock == readings(k) && forall a: nat, b: nat | a <= b :: readings(a) <= readings(b)
    ensures var t := ClaimFrom(Put(s, id, Close(s.intents[id], state, code, s.clock)), readings, k + 1, lease).0;
            Inv(t) && Kept(s, t)
    decreases |OpenIds(s)|, 0
  {
    hide Inv; hide Kept; hide ClaimFrom;
    var s1 := Put(s, id, Close(s.intents[id], state, code, s.clock));
    assert s1 == s1.(clock := s.clock);
    CloseKeeps(s, id, state, code, s.clock);
    CloseShrinks(s, id, state, code, s.clock);
    ClaimFromKeeps(s1, readings, k + 1, lease);
    KeptTransitive(s, s1, ClaimFrom(s1, readings, k + 1, lease).0);
  }

  lemma ClaimKeeps(s: Db, readings: nat -> Time, lease: Id)
    requires Inv(s) && lease !in s.past.slots && Monotone(readings, s.clock)
    ensures Inv(Claim(s, readings, lease).0) && Kept(s, Claim(s, readings, lease).0)
  {
    hide Inv; hide ClaimFrom;
    ClaimFromKeeps(s, readings, 0, lease);
    TickKeeps(s, ClaimFrom(s, readings, 0, lease).0.clock);
  }

  // ---------------------------------------------------------------- deliver

  /** Finishing the newest attempt of a leased or uncertain row; i0 is the row's intent inside the transaction. */
  lemma FinishedOk(cfg: Settings, id: Id, i: Intent, i0: Intent, state: State, code: Code, now: Time, immediate: bool,
                   a: History, b: History)
    requires IntentOk(cfg, id, i, a) && i.row.state in {Queued, AcceptanceUncertain} && i.row.attemptCount in i.attempts
    requires i.row.state == Queued ==> i.row.lease.Some?
    requires i0.row == i.row && i0.attempts.Keys == i.attempts.Keys
    requires forall k | k in i.attempts :: i0.attempts[k].lease == i.attempts[k].lease
    requires forall k | k in i.attempts && k != i.row.attemptCount :: i0.attempts[k] == i.attempts[k]
    requires Grows(a, b)
    requires Terminal(state) || state in {Queued, AcceptanceUncertain}
    requires state == Queued ==> code in {NotAccepted, ClaimRecovered, LeaseRecovered}
                                 && (i.row.attemptCount < cfg.maxAttempts || code == ClaimRecovered)
    requires state == AcceptanceUncertain ==> code == AcceptanceUnknown
    requires b.captures[id] <= 1 && (b.captures[id] > 0 ==> state == ProviderAccepted)
    requires i0.capture.Some? ==> b.captures[id] == 1 && i0.capture.value.digest == i.row.deliveryDigest
                                  && i0.capture.value.content == i.row.payload
    requires b.sends[id] <= i.row.attemptCount
    requires !Terminal(state) ==> b.sends[id] == i.row.attemptCount - if code == ClaimRecovered then 1 else 0
    ensures IntentOk(cfg, id, Finish(cfg, i0, i.row.attemptCount, state, code, now, immediate), b)
    ensures Evolves(i, Finish(cfg, i0, i.row.attemptCount, state, code, now, immediate))
  {
    var n := i.row.attemptCount;
    var j := Finish(cfg, i0, n, state, code, now, immediate);
    forall k | k in j.attempts ensures AttemptOk(j, k) {
      assert AttemptOk(i, k);
    }
    assert Pending(j) <==> code == ClaimRecovered;
  }

  /** The attempt that carries the held lease is the newest one, and it is claimed. */
  lemma CarrierIsNewest(cfg: Settings, id: Id, i: Intent, past: History)
    requires IntentOk(cfg, id, i, past) && i.row.lease.Some?
    ensures i.row.attemptCount in i.attempts && CarriedBy(i, i.row.lease.value, i.row.attemptCount)
    ensures forall n | CarriedBy(i, i.row.lease.value, n) :: n == i.row.attemptCount
    ensures i.attempts[i.row.attemptCount].phase == Claimed && i.row.state == Queued
  {
    var l := i.row.lease.value;
    forall n | CarriedBy(i, l, n) ensures n == i.row.attemptCount {
      assert past.slots[l] == LeaseOf(id, n);
    }
  }

  lemma CarrierFound(cfg: Settings, id: Id, i: Intent, past: History)
    requires IntentOk(cfg, id, i, past) && i.row.lease.Some?
    ensures var ns := set n | n in i.attempts && CarriedBy(i, i.row.lease.value, n);
            ns != {} && Highest(ns) == i.row.attemptCount
  {
    hide IntentOk;
    CarrierIsNewest(cfg, id, i, past);
    var ns := set n | n in i.attempts && CarriedBy(i, i.row.lease.value, n);
    assert i.row.attemptCount in ns;
  }

  lemma RefusedKeeps(s: Db, id: Id, verdict: Audience)
    requires Inv(s) && id in s.intents && s.intents[id].row.lease.Some? && s.intents[id].row.attemptCount in s.intents[id].attempts
    ensures var t := Refused(s, id, s.intents[id].row.attemptCount, verdict, s.clock); Inv(t) && Kept(s, t)
  {
    hide Inv; hide Kept; hide IntentOk;
    var i := s.intents[id];
    var t := Refused(s, id, i.row.attemptCount, verdict, s.clock);
    IntentOf(s, id);
    CarrierIsNewest(s.cfg, id, i, s.past);
    LeasedLedger(s.cfg, id, i, s.past);
    if verdict == CheckRaises {
      FinishedOk(s.cfg, id, i, i, Failed, AudienceCheckFailed, s.clock, false, s.past, s.past);
    } else {
      FinishedOk(s.cfg, id, i, i, Suppressed, AddressOrAudienceChanged, s.clock, false, s.past, s.past);
    }
    OneIntentKeeps(s, t, id);
  }

  /** A leased intent has an unsent newest attempt and nothing captured. */
  lemma LeasedLedger(cfg: Settings, id: Id, i: Intent, past: History)
    requires IntentOk(cfg, id, i, past) && i.row.lease.Some?
    ensures past.sends[id] == i.row.attemptCount - 1 && past.captures[id] == 0 && i.capture.None?
    ensures MessageDigest(i.row.payload) == i.row.deliveryDigest && i.row.attemptCount <= cfg.maxAttempts
  {
  }

  lemma SentKeeps(s: Db, id: Id, e: Surroundings, later: Time)
    requires Inv(s) && id in s.intents && s.intents[id].row.lease.Some? && s.clock <= later
    requires s.intents[id].row.attemptCount in s.intents[id].attempts
    ensures var t := Sent(s, id, s.intents[id].row.attemptCount, e, later); Inv(t) && Kept(s, t)
  {
    hide Inv; hide Kept; hide IntentOk; hide Evolves;
    var i := s.intents[id];
    var n := i.row.attemptCount;
    var t := Sent(s, id, n, e, later);
    IntentOf(s, id);
    CarrierIsNewest(s.cfg, id, i, s.past);
    LeasedLedger(s.cfg, id, i, s.past);
    var started := i.(attempts := i.attempts[n := i.attempts[n].(phase := Started)]);
    var out := Send(s.cfg, started, e);
    FinishedOk(s.cfg, id, i, out.intent, out.state, out.code, later, false, s.past, t.past);
    OneIntentKeeps(s, t, id);
  }

  lemma DeliverKeeps(s: Db, id: Id, lease: Id, now: Time, later: Time, e: Surroundings)
    requires Inv(s) && s.clock <= now <= later
    ensures Inv(Deliver(s, id, lease, now, later, e).0) && Kept(s, Deliver(s, id, lease, now, later, e).0)
  {
    hide Inv; hide Kept; hide IntentOk; hide Sent; hide Refused; hide Allowed;
    var s0 := s.(clock := now);
    TickKeeps(s, now);
    if id in s0.intents && HoldsLease(s0.intents[id], lease, now) {
      var i := s0.intents[id];
      IntentOf(s0, id);
      CarrierFound(s0.cfg, id, i, s0.past);
      CarrierIsNewest(s0.cfg, id, i, s0.past);
      var verdict := Allowed(s0, i.row, e, now);
      if verdict != Qualifies {
        RefusedKeeps(s0, id, verdict);
      } else {
        SentKeeps(s0, id, e, later);
      }
      KeptTransitive(s, s0, Deliver(s, id, lease, now, later, e).0);
    }
  }

  // ---------------------------------------------------------------- recover

  lemma RecoveredOk(cfg: Settings, id: Id, i: Intent, caps: Capabilities, answer: Lookup, now: Time, past: History)
    requires IntentOk(cfg, id, i, past) && RecoverIntent(cfg, i, caps, answer, now).Some?
    ensures IntentOk(cfg, id, RecoverIntent(cfg, i, caps, answer, now).value, past)
    ensures Evolves(i, RecoverIntent(cfg, i, caps, answer, now).value)
    ensures RecoverIntent(cfg, i, caps, answer, now).value.row.lease == None
  {
    LatestIsCount(i);
    var n := i.row.attemptCount;
    assert AttemptOk(i, n);
    var preSend := Expired(i, now) && i.attempts[n].phase == Claimed;
    match Reconciled(answer, caps, preSend)
    case Accepted =>
      FinishedOk(cfg, id, i, i, ProviderAccepted, if caps.localCapture then CapturedLocal else AcceptedByProvider, now, preSend, past, past);
    case Absent =>
      FinishedOk(cfg, id, i, i, if preSend || n < cfg.maxAttempts then Queued else Failed,
                 if preSend then ClaimRecovered else LeaseRecovered, now, preSend, past, past);
    case _ =>
      FinishedOk(cfg, id, i, i, AcceptanceUncertain, AcceptanceUnknown, now, preSend, past, past);
  }

  lemma RecoverKeeps(s: Db, id: Id, caps: Capabilities, answer: Lookup, now: Time)
    requires Inv(s) && s.clock <= now
    ensures Inv(Recover(s, id, caps, answer, now).0) && Kept(s, Recover(s, id, caps, answer, now).0)
  {
    hide Inv; hide Kept; hide IntentOk; hide RecoverIntent; hide Evolves;
    var s0 := s.(clock := now);
    TickKeeps(s, now);
    if id in s0.intents && RecoverIntent(s0.cfg, s0.intents[id], caps, answer, now).Some? {
      IntentOf(s0, id);
      RecoveredOk(s0.cfg, id, s0.intents[id], caps, answer, now, s0.past);
      var t := Recover(s, id, caps, answer, now).0;
      OneIntentKeeps(s0, t, id);
      KeptTransitive(s, s0, t);
    }
  }

  // ---------------------------------------------------------------- housekeeping

  lemma ErasedOk(cfg: Settings, id: Id, i: Intent, cutoff: Time, now: Time, past: History)
    requires IntentOk(cfg, id, i, past)
    requires i.row.lease.None? && i.row.erasedAt.None? && i.row.state != AcceptanceUncertain
    requires i.row.challenge.Some? || Terminal(i.row.state)
    ensures IntentOk(cfg, id, EraseIntent(i, cutoff, now), past)
    ensures Evolves(i, EraseIntent(i, cutoff, now)) && EraseIntent(i, cutoff, now).row.lease == None
  {
    var j := EraseIntent(i, cutoff, now);
    forall k | k in j.attempts ensures AttemptOk(j, k) { assert AttemptOk(i, k); }
  }

  /** Only one address record changed, and it was neither asked nor answered. */
  lemma OneAddressOk(s: Db, t: Db, p: Id)
    requires AddressesOk(s) && p in s.addresses && t.cfg == s.cfg && s.clock <= t.clock && t.past == s.past
    requires t.addresses == s.addresses[p := ClearedAddress(s.addresses[p])]
    ensures AddressesOk(t)
  {
    hide Spaced; hide CountDay;
    assert forall q :: t.Issues(q) == s.Issues(q);
    forall q | q in t.addresses ensures ChallengeOk(q, t.addresses[q], t.past) {
      assert ChallengeOk(q, s.addresses[q], s.past);
    }
    forall q | q in t.addresses ensures IssuesOk(t.cfg, t.Issues(q), t.addresses[q], t.clock) {
      assert IssuesOk(s.cfg, s.Issues(q), s.addresses[q], s.clock);
    }
  }

  lemma ErasedAddressKeeps(s: Db, p: Id)
    requires Inv(s) && p in s.addresses
    ensures var t := s.(addresses := s.addresses[p := ClearedAddress(s.addresses[p])]); Inv(t) && Kept(s, t)
  {
    hide IntentsOk; hide KeysOk; hide QuotaOk; hide AddressesOk; hide Kept; hide ClearedAddress;
    var t := s.(addresses := s.addresses[p := ClearedAddress(s.addresses[p])]);
    IntentsFrame(s, t); QuotaFrame(s, t); KeysFrame(s, t); SameIntentsKept(s, t); OneAddressOk(s, t, p);
  }

  lemma EraseKeeps(s: Db, id: Id, cutoff: Time, now: Time)
    requires Inv(s) && s.clock <= now
    ensures Inv(Erase(s, id, cutoff, now).0) && Kept(s, Erase(s, id, cutoff, now).0)
  {
    hide Inv; hide Kept; hide IntentOk; hide EraseIntent; hide Evolves; hide ClearedAddress;
    var s0 := s.(clock := now);
    TickKeeps(s, now);
    if Erase(s, id, cutoff, now).1 {
      IntentOf(s0, id);
      ErasedOk(s0.cfg, id, s0.intents[id], cutoff, now, s0.past);
      var s1 := Put(s0, id, EraseIntent(s0.intents[id], cutoff, now));
      OneIntentKeeps(s0, s1, id);
      var p := s0.intents[id].row.recipient;
      var t := Erase(s, id, cutoff, now).0;
      if t != s1 {
        ErasedAddressKeeps(s1, p);
        KeptTransitive(s0, s1, t);
      }
      KeptTransitive(s, s0, t);
    }
  }

  /** Several intents changed, each lawfully, and nothing else did. */
  lemma ManyIntentsKeep(s: Db, t: Db)
    requires Inv(s) && t == s.(intents := t.intents) && t.intents.Keys == s.intents.Keys
    requires forall id | id in s.intents ::
               IntentOk(s.cfg, id, t.intents[id], s.past) && Evolves(s.intents[id], t.intents[id])
               && LeaseSource(s.intents[id], t.intents[id], s.past)
    ensures Inv(t) && Kept(s, t)
  {
    hide IntentOk; hide QuotaOk; hide AddressesOk; hide KeysOk;
    QuotaFrame(s, t); AddressesFrame(s, t); KeysFrame(s, t);
  }

  lemma DropAttemptsKeeps(s: Db, chosen: set<(Id, nat)>, cutoff: Time)
    requires Inv(s)
    ensures Inv(DropAttempts(s, chosen, cutoff)) && Kept(s, DropAttempts(s, chosen, cutoff))
  {
    hide Inv; hide Kept; hide IntentOk;
    var t := DropAttempts(s, chosen, cutoff);
    forall id | id in s.intents
      ensures IntentOk(s.cfg, id, t.intents[id], s.past) && Evolves(s.intents[id], t.intents[id])
              && LeaseSource(s.intents[id], t.intents[id], s.past)
    {
      IntentOf(s, id);
      FewerAttemptsOk(s.cfg, id, s.intents[id], t.intents[id], s.past);
    }
    ManyIntentsKeep(s, t);
  }

  lemma FewerAttemptsOk(cfg: Settings, id: Id, i: Intent, j: Intent, past: History)
    requires IntentOk(cfg, id, i, past) && j == i.(attempts := j.attempts)
    requires forall n | n in j.attempts :: n in i.attempts && j.attempts[n] == i.attempts[n]
    requires !Terminal(i.row.state) ==> j.attempts == i.attempts
    ensures IntentOk(cfg, id, j, past)
  {
    forall k | k in j.attempts ensures AttemptOk(j, k) { assert AttemptOk(i, k); }
  }

  lemma DropCapturesKeeps(s: Db, chosen: set<Id>, cutoff: Time)
    requires Inv(s)
    ensures Inv(DropCaptures(s, chosen, cutoff)) && Kept(s, DropCaptures(s, chosen, cutoff))
  {
    hide Inv; hide Kept; hide IntentOk;
    var t := DropCaptures(s, chosen, cutoff);
    forall id | id in s.intents
      ensures IntentOk(s.cfg, id, t.intents[id], s.past) && Evolves(s.intents[id], t.intents[id])
              && LeaseSource(s.intents[id], t.intents[id], s.past)
    {
      IntentOf(s, id);
      NoCaptureOk(s.cfg, id, s.intents[id], s.past);
    }
    ManyIntentsKeep(s, t);
  }

  lemma NoCaptureOk(cfg: Settings, id: Id, i: Intent, past: History)
    requires IntentOk(cfg, id, i, past)
    ensures IntentOk(cfg, id, i.(capture := None), past)
  {
    var j := i.(capture := None);
    forall k | k in j.attempts ensures AttemptOk(j, k) { assert AttemptOk(i, k); }
  }

  lemma DropBucketsKeeps(s: Db, cutoff: Time)
    requires Inv(s) && cutoff <= s.clock
    ensures Inv(DropBuckets(s, cutoff)) && Kept(s, DropBuckets(s, cutoff))
  {
    hide IntentsOk; hide KeysOk; hide AddressesOk; hide Kept;
    var t := DropBuckets(s, cutoff);
    IntentsFrame(s, t); AddressesFrame(s, t); KeysFrame(s, t); SameIntentsKept(s, t);
  }

  // ---------------------------------------------------------------- requests

  lemma SuppressedKeeps(s: Db, identity: Id, now: Time)
    requires Inv(s)
    ensures Inv(SuppressVerification(s, identity, now)) && Kept(s, SuppressVerification(s, identity, now))
  {
    hide Inv; hide Kept; hide IntentOk;
    var t := SuppressVerification(s, identity, now);
    forall id | id in s.intents
      ensures IntentOk(s.cfg, id, t.intents[id], s.past) && Evolves(s.intents[id], t.intents[id])
              && LeaseSource(s.intents[id], t.intents[id], s.past)
    {
      IntentOf(s, id);
      if Open(s.intents[id]) { ClosedOk(s.cfg, id, s.intents[id], Suppressed, ChallengeEnded, now, s.past); }
    }
    ManyIntentsKeep(s, t);
  }

  /** A new row under an unused key. */
  lemma NewRowKeeps(s: Db, id: Id, row: Row)
    requires Inv(s) && id !in s.intents && WithKey(s, row.key) == {}
    requires row.state == Requested && row.attemptCount == 0 && row.lease.None? && row.leaseUntil.None?
    requires row.terminalAt.None? && row.erasedAt.None? && MessageDigest(row.payload) == row.deliveryDigest
    requires (row.verifies <==> row.challenge.Some?) && (row.challenge.Some? ==> row.challenge.value in s.past.slots)
    ensures Inv(Put(s, id, Intent(row, map[], None))) && Kept(s, Put(s, id, Intent(row, map[], None)))
  {
    hide IntentsOk; hide KeysOk; hide QuotaOk; hide AddressesOk; hide Kept;
    var t := Put(s, id, Intent(row, map[], None));
    QuotaFrame(s, t); AddressesFrame(s, t); NewKeyOk(s, id, row);
    UnknownIntent(s, id);
    NewIntentOk(s.cfg, id, row, s.past);
    NewIntentFrame(s, t, id);
  }

  lemma UnknownIntent(s: Db, id: Id)
    requires IntentsOk(s) && id !in s.intents
    ensures s.past.sends[id] == 0 && s.past.captures[id] == 0
  {
  }

  lemma NewKeyOk(s: Db, id: Id, row: Row)
    requires KeysOk(s) && id !in s.intents && WithKey(s, row.key) == {}
    ensures KeysOk(Put(s, id, Intent(row, map[], None)))
  {
    assert forall j | j in s.intents :: s.intents[j].row.key == row.key ==> j in WithKey(s, row.key);
  }

  lemma NewIntentOk(cfg: Settings, id: Id, row: Row, past: History)
    requires past.sends[id] == 0 && past.captures[id] == 0
    requires row.state == Requested && row.attemptCount == 0 && row.lease.None? && row.leaseUntil.None?
    requires row.terminalAt.None? && row.erasedAt.None? && MessageDigest(row.payload) == row.deliveryDigest
    requires (row.verifies <==> row.challenge.Some?) && (row.challenge.Some? ==> row.challenge.value in past.slots)
    ensures IntentOk(cfg, id, Intent(row, map[], None), past)
  {
  }

  lemma NewIntentFrame(s: Db, t: Db, id: Id)
    requires IntentsOk(s) && id !in s.intents && id in t.intents && t == Put(s, id, t.intents[id])
    requires IntentOk(t.cfg, id, t.intents[id], t.past) && t.intents[id].row.lease.None?
    ensures IntentsOk(t) && Kept(s, t)
  {
    hide IntentOk;
  }

  lemma EnqueueKeeps(s: Db, id: Id, row: Row)
    requires Inv(s) && id !in s.intents
    requires row.state == Requested && row.attemptCount == 0 && row.lease.None? && row.leaseUntil.None?
    requires row.terminalAt.None? && row.erasedAt.None? && MessageDigest(row.payload) == row.deliveryDigest
    requires (row.verifies <==> row.challenge.Some?) && (row.challenge.Some? ==> row.challenge.value in s.past.slots)
    ensures Inv(Enqueue(s, id, row).0) && Kept(s, Enqueue(s, id, row).0)
  {
    hide Inv; hide Kept;
    if WithKey(s, row.key) == {} {
      NewRowKeeps(s, id, row);
    }
    TickKeeps(s, s.clock);
    assert s.(clock := s.clock) == s;
  }

  lemma {:induction false} CountDayAppend(ts: seq<Time>, t: Time, d: int)
    ensures CountDay(ts + [t], d) == CountDay(ts, d) + if Day(t) == d then 1 else 0
  {
    assert (ts + [t])[..|ts|] == ts;
  }

  lemma ChallengedOk(cfg: Settings, ts: seq<Time>, a: AddressRecord, q: VerificationRequest, now: Time, clock: Time)
    requires IssuesOk(cfg, ts, a, clock) && clock <= now && !TooSoon(cfg, a, now)
    ensures IssuesOk(cfg, ts + [now], Challenged(cfg, a, q, now), now)
  {
    var us := ts + [now];
    forall d ensures CountDay(us, d) == CountDay(ts, d) + if Day(now) == d then 1 else 0 {
      CountDayAppend(ts, now, d);
    }
    if ts == [] {
      assert forall d :: CountDay(ts, d) == 0;
    } else {
      assert Day(ts[|ts| - 1]) <= Day(now);
    }
  }

  lemma IssueKeeps(s: Db, q: VerificationRequest)
    requires Inv(s) && q.challenge !in s.past.slots && !TooSoon(s.cfg, AddressOf(s, q.identity), s.clock)
    ensures Inv(Issue(s, q, s.clock)) && Kept(s, Issue(s, q, s.clock))
  {
    hide IntentsOk; hide KeysOk; hide QuotaOk; hide AddressesOk; hide Kept; hide SuppressVerification;
    var u := SuppressVerification(s, q.identity, s.clock);
    SuppressedKeeps(s, q.identity, s.clock);
    SuppressedSame(s, q.identity, s.clock);
    var t := Issue(s, q, s.clock);
    IntentsFrame(u, t); KeysFrame(u, t); QuotaFrame(u, t); SameIntentsKept(u, t);
    KeptTransitive(s, u, t);
    IssueKeepsAddresses(u, q);
  }

  lemma SuppressedSame(s: Db, identity: Id, now: Time)
    ensures var u := SuppressVerification(s, identity, now); u == s.(intents := u.intents)
  {
  }

  lemma IssueKeepsAddresses(s: Db, q: VerificationRequest)
    requires AddressesOk(s) && q.challenge !in s.past.slots && !TooSoon(s.cfg, AddressOf(s, q.identity), s.clock)
    ensures var t := s.(addresses := s.addresses[q.identity := Challenged(s.cfg, AddressOf(s, q.identity), q, s.clock)],
                        past := s.past.(issues := s.past.issues[q.identity := s.Issues(q.identity) + [s.clock]],
                                        slots := s.past.slots[q.challenge := ChallengeOf(q.identity)]));
            AddressesOk(t)
  {
    hide Spaced; hide CountDay; hide TooSoon;
    var t := s.(addresses := s.addresses[q.identity := Challenged(s.cfg, AddressOf(s, q.identity), q, s.clock)],
                past := s.past.(issues := s.past.issues[q.identity := s.Issues(q.identity) + [s.clock]],
                                slots := s.past.slots[q.challenge := ChallengeOf(q.identity)]));
    forall p | p in t.addresses ensures ChallengeOk(p, t.addresses[p], t.past) {
      if p in s.addresses { assert ChallengeOk(p, s.addresses[p], s.past); }
    }
    assert IssuesOk(s.cfg, s.Issues(q.identity), AddressOf(s, q.identity), s.clock) by { NewAddressOk(s, q.identity); }
    ChallengedOk(s.cfg, s.Issues(q.identity), AddressOf(s, q.identity), q, s.clock, s.clock);
    forall p | p in t.addresses ensures IssuesOk(t.cfg, t.Issues(p), t.addresses[p], t.clock) {
      if p != q.identity { assert t.Issues(p) == s.Issues(p); assert IssuesOk(s.cfg, s.Issues(p), s.addresses[p], s.clock); }
    }
    forall p | p !in t.addresses ensures t.Issues(p) == [] { assert p !in s.addresses; }
  }

  lemma NewAddressOk(s: Db, p: Id)
    requires AddressesOk(s)
    ensures IssuesOk(s.cfg, s.Issues(p), AddressOf(s, p), s.clock)
  {
    if p !in s.addresses { assert s.Issues(p) == []; assert forall d :: CountDay([], d) == 0; }
  }

  lemma RequestVerificationKeeps(s: Db, q: VerificationRequest, now: Time)
    requires Inv(s) && s.clock <= now && q.challenge !in s.past.slots && q.intent !in s.intents
    ensures Inv(RequestVerification(s, q, now).0) && Kept(s, RequestVerification(s, q, now).0)
  {
    hide Inv; hide Kept; hide Issue; hide TooSoon; hide Enqueue;
    var s0 := s.(clock := now);
    TickKeeps(s, now);
    if q.admitted && WithKey(s0, q.key) == {} && !TooSoon(s0.cfg, AddressOf(s0, q.identity), now) && q.templateOk {
      var u := Issue(s0, q, now);
      IssueKeeps(s0, q);
      IssueIntents(s0, q, now);
      EnqueueKeeps(u, q.intent, VerificationRow(q, now));
      var t := Enqueue(u, q.intent, VerificationRow(q, now)).0;
      KeptTransitive(s0, u, t);
      KeptTransitive(s, s0, t);
    }
  }

  lemma IssueIntents(s: Db, q: VerificationRequest, now: Time)
    ensures Issue(s, q, now).intents.Keys == s.intents.Keys && q.challenge in Issue(s, q, now).past.slots
  {
  }

  lemma VerifiedKeepsAddresses(s: Db, p: Id, challenge: Id)
    requires AddressesOk(s) && p in s.addresses && s.addresses[p].challenge == Some(challenge)
    ensures AddressesOk(s.(addresses := s.addresses[p := Verified(s.addresses[p], s.clock)],
                           past := s.past.(verified := s.past.verified + multiset{challenge})))
  {
    hide Spaced; hide CountDay;
    var t := s.(addresses := s.addresses[p := Verified(s.addresses[p], s.clock)],
                past := s.past.(verified := s.past.verified + multiset{challenge}));
    assert ChallengeOk(p, s.addresses[p], s.past);
    assert forall q :: t.Issues(q) == s.Issues(q);
    forall q | q in t.addresses ensures ChallengeOk(q, t.addresses[q], t.past) {
      assert ChallengeOk(q, s.addresses[q], s.past);
    }
    forall q | q in t.addresses ensures IssuesOk(t.cfg, t.Issues(q), t.addresses[q], t.clock) {
      assert IssuesOk(s.cfg, s.Issues(q), s.addresses[q], s.clock);
    }
  }

  lemma VerifyAddressKeeps(s: Db, identity: Id, active: bool, challenge: Id, token: string, now: Time)
    requires Inv(s) && s.clock <= now
    ensures Inv(VerifyAddress(s, identity, active, challenge, token, now).0)
    ensures Kept(s, VerifyAddress(s, identity, active, challenge, token, now).0)
  {
    hide IntentsOk; hide KeysOk; hide QuotaOk; hide AddressesOk; hide Kept; hide SuppressVerification;
    var s0 := s.(clock := now);
    TickKeeps(s, now);
    if active && identity in s0.addresses && TokenProves(s0.addresses[identity], challenge, token, now) {
      var u := SuppressVerification(s0, identity, now);
      SuppressedKeeps(s0, identity, now);
      SuppressedSame(s0, identity, now);
      var t := VerifyAddress(s, identity, active, challenge, token, now).0;
      VerifiedKeepsAddresses(u, identity, challenge);
      IntentsFrame(u, t); KeysFrame(u, t); QuotaFrame(u, t); SameIntentsKept(u, t);
      KeptTransitive(s0, u, t);
      KeptTransitive(s, s0, t);
    }
  }

  lemma RequestMessageKeeps(s: Db, q: NoticeRequest, now: Time)
    requires Inv(s) && s.clock <= now && q.intent !in s.intents
    ensures Inv(RequestMessage(s, q, now).0) && Kept(s, RequestMessage(s, q, now).0)
  {
    hide Inv; hide Kept; hide Enqueue;
    var s0 := s.(clock := now);
    TickKeeps(s, now);
    if q.approved && AddressOf(s0, q.recipient).verified != "" {
      var payload := NoticePayload(s0, q);
      var row := NewRow(q.key, NoticePrint(q.recipient, q.category, payload, q.act), q.recipient,
                        q.category, None, payload, q.created, now);
      EnqueueKeeps(s0, q.intent, row);
      KeptTransitive(s, s0, Enqueue(s0, q.intent, row).0);
    }
  }
}
