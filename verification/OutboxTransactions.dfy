/** Each `transaction.atomic()` block of the worker and the service as a function from the
    database before to the database after. A crash inside a block is a block that did not happen. */
module OutboxTransactions {
  import opened Prelude
  import opened Ordering
  import opened OutboxModel

  function Put(s: Db, id: Id, i: Intent): Db { s.(intents := s.intents[id := i]) }

  // ---------------------------------------------------------------- claim

  predicate Open(i: Intent) { i.row.state in {Requested, Queued} && i.row.lease == None }

  predicate Eligible(i: Intent, now: Time) { Open(i) && i.row.readyAt <= now }

  function OpenIds(s: Db): set<Id> { set id | id in s.intents && Open(s.intents[id]) }

  function EligibleIds(s: Db, now: Time): set<Id> { set id | id in s.intents && Eligible(s.intents[id], now) }

  function CategoryRank(c: Category): int { if c == Essential then 0 else 1 }

  function ClaimRank(intents: map<Id, Intent>): Id -> Rank {
    (id: Id) => if id in intents then
                  var row := intents[id].row; Rank(CategoryRank(row.category), row.createdAt, id)
                else Rank(0, 0, id)
  }

  /** The recipient's live challenge is the one this row carries, for the row's address. */
  predicate ChallengeLive(s: Db, row: Row, now: Time) {
    row.recipient in s.addresses
    && var a := s.addresses[row.recipient];
    a.challenge == row.challenge && a.digest.Some? && a.expiresAt.Some? && now < a.expiresAt.value
    && a.pending == row.payload.to
  }

  /** The highest-numbered attempt, if any. */
  function Latest(i: Intent): (r: Option<nat>)
    ensures r.Some? ==> r.value in i.attempts && forall k | k in i.attempts :: k <= r.value
    ensures r.None? ==> i.attempts == map[]
  {
    if i.attempts.Keys == {} then None else Some(Highest(i.attempts.Keys))
  }

  predicate Resumable(i: Intent) {
    Latest(i).Some? && i.attempts[Latest(i).value].code == ClaimRecovered
  }

  function BucketOf(s: Db, day: int): Bucket {
    if day in s.buckets then s.buckets[day] else Bucket(0, 0)
  }

  predicate Full(cfg: Settings, b: Bucket, c: Category) {
    b.total >= cfg.capacity || (c == Notice && b.notice >= cfg.capacity - cfg.reserve)
  }

  datatype Judgement = ChallengeOver | BudgetSpent | ReserveTooLarge | NoCapacity | Grant

  function Judge(s: Db, i: Intent, now: Time): Judgement {
    if i.row.challenge.Some? && !ChallengeLive(s, i.row, now) then ChallengeOver
    else if i.row.attemptCount >= s.cfg.maxAttempts && !Resumable(i) then BudgetSpent
    else if s.cfg.reserve > s.cfg.capacity then ReserveTooLarge
    else if Full(s.cfg, BucketOf(s, Day(now)), i.row.category) then NoCapacity
    else Grant
  }

  function Close(i: Intent, state: State, code: Code, now: Time): Intent {
    i.(row := i.row.(state := state, lastCode := code, terminalAt := Some(now)))
  }

  function Leased(cfg: Settings, i: Intent, lease: Id, now: Time): Intent {
    var resume := Resumable(i);
    var number := if resume then i.row.attemptCount else i.row.attemptCount + 1;
    var row := i.row.(state := Queued, attemptCount := number, lease := Some(lease),
                      leaseUntil := Some(now + cfg.leaseSeconds));
    var slot := if resume then Latest(i).value else number;
    i.(row := row, attempts := i.attempts[slot := Attempt(lease, Claimed, None, NoCode)])
  }

  function Charge(b: Bucket, c: Category): Bucket {
    Bucket(b.total + 1, b.notice + if c == Notice then 1 else 0)
  }

  function GrantClaim(s: Db, id: Id, lease: Id, now: Time): Db
    requires id in s.intents
  {
    var i := s.intents[id];
    var day := Day(now);
    var i' := Leased(s.cfg, i, lease, now);
    Put(s, id, i').(buckets := s.buckets[day := Charge(BucketOf(s, day), i.row.category)],
                    past := s.past.(claims := s.past.claims + multiset{ClaimMade(day, i.row.category)},
                                    slots := s.past.slots[lease := LeaseOf(id, i'.row.attemptCount)]))
  }

  datatype ClaimResult = Work(intent: Id, lease: Id) | NoWork | Misconfigured

  /** The loop of `claim`, from its k-th clock reading on. Obsolete rows are closed on the way. */
  function ClaimFrom(s: Db, readings: nat -> Time, k: nat, lease: Id): (Db, ClaimResult)
    decreases |OpenIds(s)|
  {
    var now := readings(k);
    var s := s.(clock := now);
    var ids := EligibleIds(s, now);
    if ids == {} then (s, NoWork)
    else
      var id := First(ids, ClaimRank(s.intents));
      var i := s.intents[id];
      match Judge(s, i, now)
      case ChallengeOver =>
        CloseShrinks(s, id, Suppressed, ChallengeEnded, now);
        ClaimFrom(Put(s, id, Close(i, Suppressed, ChallengeEnded, now)), readings, k + 1, lease)
      case BudgetSpent =>
        CloseShrinks(s, id, Failed, AttemptsExhausted, now);
        ClaimFrom(Put(s, id, Close(i, Failed, AttemptsExhausted, now)), readings, k + 1, lease)
      case ReserveTooLarge => (s, Misconfigured)
      case NoCapacity => (s.(buckets := s.buckets[Day(now) := BucketOf(s, Day(now))]), NoWork)
      case Grant => (GrantClaim(s, id, lease, now), Work(id, lease))
  }

  /** What one turn of the loop makes of the row it picked; None goes round again. */
  function RowTurn(s: Db, id: Id, now: Time, lease: Id): (Db, Option<ClaimResult>)
    requires id in s.intents
  {
    var i := s.intents[id];
    match Judge(s, i, now)
    case ChallengeOver => (Put(s, id, Close(i, Suppressed, ChallengeEnded, now)), None)
    case BudgetSpent => (Put(s, id, Close(i, Failed, AttemptsExhausted, now)), None)
    case ReserveTooLarge => (s, Some(Misconfigured))
    case NoCapacity => (s.(buckets := s.buckets[Day(now) := BucketOf(s, Day(now))]), Some(NoWork))
    case Grant => (GrantClaim(s, id, lease, now), Some(Work(id, lease)))
  }

  function ClaimTurn(s: Db, now: Time, lease: Id): (Db, Option<ClaimResult>) {
    var s := s.(clock := now);
    var ids := EligibleIds(s, now);
    if ids == {} then (s, Some(NoWork)) else RowTurn(s, First(ids, ClaimRank(s.intents)), now, lease)
  }

  lemma ClaimTurns(s: Db, readings: nat -> Time, k: nat, lease: Id)
    ensures var (s', r) := ClaimTurn(s, readings(k), lease);
            ClaimFrom(s, readings, k, lease) == if r.Some? then (s', r.value) else ClaimFrom(s', readings, k + 1, lease)
  {
  }

  /** Closing a row leaves fewer open rows, which is why the loop ends. */
  lemma CloseShrinks(s: Db, id: Id, state: State, code: Code, now: Time)
    requires id in s.intents && Open(s.intents[id]) && Terminal(state)
    ensures OpenIds(Put(s, id, Close(s.intents[id], state, code, now))) == OpenIds(s) - {id}
    ensures |OpenIds(Put(s, id, Close(s.intents[id], state, code, now)))| < |OpenIds(s)|
  {
    var s' := Put(s, id, Close(s.intents[id], state, code, now));
    assert OpenIds(s') == OpenIds(s) - {id};
    assert id in OpenIds(s);
  }

  /** A turn that goes round again has closed an open row. */
  lemma TurnShrinks(s: Db, now: Time, lease: Id)
    ensures ClaimTurn(s, now, lease).1.None? ==> |OpenIds(ClaimTurn(s, now, lease).0)| < |OpenIds(s)|
  {
    hide First; hide OpenIds; hide Judge;
    var s1 := s.(clock := now);
    OpenFrame(s, s1);
    if EligibleIds(s1, now) != {} {
      var id := First(EligibleIds(s1, now), ClaimRank(s1.intents));
      var i := s1.intents[id];
      CloseShrinks(s1, id, Suppressed, ChallengeEnded, now);
      CloseShrinks(s1, id, Failed, AttemptsExhausted, now);
    }
  }

  lemma OpenFrame(s: Db, t: Db)
    requires t.intents == s.intents
    ensures OpenIds(t) == OpenIds(s)
  {
  }

  /** The whole transaction: a misconfigured reserve raises, so nothing it did is kept. */
  function Claim(s: Db, readings: nat -> Time, lease: Id): (Db, ClaimResult) {
    var (s', r) := ClaimFrom(s, readings, 0, lease);
    if r == Misconfigured then (s.(clock := s'.clock), r) else (s', r)
  }

  // ---------------------------------------------------------------- deliver

  datatype Audience = CheckRaises | Refuses | Qualifies

  /** What the backend does besides capturing: nothing, or one of the exceptions of the sending savepoint. */
  datatype Fault = NoFault | RaisesSuppressed | RaisesNotAccepted | RaisesOther

  /** Everything `deliver` learns from outside the outbox tables. */
  datatype Surroundings = Surroundings(barred: bool, audience: Audience, fault: Fault, stamp: Time)

  /** `_allowed`: a barred (deactivated or severed) recipient or an erased payload refuses before
      the address is looked at; only a notice reaches its package's audience check. */
  function Allowed(s: Db, row: Row, e: Surroundings, now: Time): Audience {
    if e.barred || row.erasedAt.Some? || row.recipient !in s.addresses then Refuses
    else if row.verifies then (if ChallengeLive(s, row, now) then Qualifies else Refuses)
    else if s.addresses[row.recipient].verified == "" || row.payload.to != s.addresses[row.recipient].verified then Refuses
    else e.audience
  }

  /** `_finish`: the row gives up its lease and its attempt is over. */
  function Finish(cfg: Settings, i: Intent, n: nat, state: State, code: Code, now: Time, immediate: bool): Intent
    requires n in i.attempts
  {
    i.(row := i.row.(state := state, lastCode := code, lease := None, leaseUntil := None,
                     terminalAt := if Terminal(state) then Some(now) else None,
                     readyAt := if immediate then now else now + cfg.retrySeconds),
       attempts := i.attempts[n := i.attempts[n].(phase := Finished, finishedAt := Some(now), code := code)])
  }

  /** `CaptureBackend.send_messages` for one message of a stored intent: insert unless present,
      then compare digests. None is the key-conflict refusal. */
  function CaptureMessage(i: Intent, message: Payload, stamp: Time): Option<Intent> {
    var c := if i.capture.Some? then i.capture.value else Capture(MessageDigest(message), stamp, message);
    if c.digest != MessageDigest(message) then None else Some(i.(capture := Some(c)))
  }

  /** One message handed to the backend; `plain` is a single recipient and nothing else in the envelope. */
  datatype Outgoing = Outgoing(intent: Option<Id>, message: Payload, plain: bool)

  /** `CaptureBackend.send_messages` on a batch; None is the refusal, on which the savepoint undoes everything. */
  function CaptureAll(intents: map<Id, Intent>, batch: seq<Outgoing>, stamp: Time): Option<map<Id, Intent>> {
    if batch == [] then Some(intents)
    else
      var m := batch[0];
      if m.intent.None? || m.intent.value !in intents || !m.plain then None
      else
        var kept := CaptureMessage(intents[m.intent.value], m.message, stamp);
        if kept.None? then None
        else CaptureAll(intents[m.intent.value := kept.value], batch[1..], stamp)
  }

  datatype Sending = Sending(intent: Intent, state: State, code: Code)

  /** The savepoint: any exception undoes the capture; the outcome decides the row's next state. */
  function Send(cfg: Settings, i: Intent, e: Surroundings): Sending {
    var kept := CaptureMessage(i, i.row.payload, e.stamp);
    if e.fault == RaisesSuppressed then Sending(i, Suppressed, BackendSuppressed)
    else if e.fault == RaisesOther then Sending(i, AcceptanceUncertain, AcceptanceUnknown)
    else if e.fault == RaisesNotAccepted || kept.None? then
      Sending(i, if i.row.attemptCount < cfg.maxAttempts then Queued else Failed, NotAccepted)
    else Sending(kept.value, ProviderAccepted, CapturedLocal)
  }

  predicate HoldsLease(i: Intent, lease: Id, now: Time) {
    i.row.state == Queued && i.row.lease == Some(lease) && i.row.leaseUntil.Some? && now < i.row.leaseUntil.value
  }

  /** The attempt that carries a lease; `get` raises when there is not exactly one. */
  predicate CarriedBy(i: Intent, lease: Id, n: nat) { n in i.attempts && i.attempts[n].lease == lease }

  /** The two steps of the loop-free part of `deliver` that write. */
  function Refused(s: Db, id: Id, n: nat, verdict: Audience, now: Time): Db
    requires id in s.intents && n in s.intents[id].attempts
  {
    Put(s, id, if verdict == CheckRaises
               then Finish(s.cfg, s.intents[id], n, Failed, AudienceCheckFailed, now, false)
               else Finish(s.cfg, s.intents[id], n, Suppressed, AddressOrAudienceChanged, now, false))
  }

  function Sent(s: Db, id: Id, n: nat, e: Surroundings, later: Time): Db
    requires id in s.intents && n in s.intents[id].attempts
  {
    var i := s.intents[id];
    var i := i.(attempts := i.attempts[n := i.attempts[n].(phase := Started)]);
    var out := Send(s.cfg, i, e);
    Put(s, id, Finish(s.cfg, out.intent, n, out.state, out.code, later, false))
    .(clock := later,
      past := s.past.(sends := s.past.sends + multiset{id},
                      captures := if out.state == ProviderAccepted && i.capture.None?
                                  then s.past.captures + multiset{id} else s.past.captures))
  }

  /** `deliver`. None stands for a missing intent or attempt, on which the source's `get` raises. */
  function Deliver(s: Db, id: Id, lease: Id, now: Time, later: Time, e: Surroundings): (Db, Option<bool>) {
    var s := s.(clock := now);
    if id !in s.intents then (s, None)
    else
      var i := s.intents[id];
      if !HoldsLease(i, lease, now) then (s, Some(false))
      else
        var ns := set n | n in i.attempts && CarriedBy(i, lease, n);
        if ns == {} then (s, None)
        else
          var n := Highest(ns);
          if i.attempts[n].phase != Claimed then (s, Some(false))
          else if Allowed(s, i.row, e, now) != Qualifies then (Refused(s, id, n, Allowed(s, i.row, e, now), now), Some(false))
          else
            var s' := Sent(s, id, n, e, later);
            (s', Some(s'.intents[id].row.state == ProviderAccepted))
  }

  // ---------------------------------------------------------------- recover

  datatype Lookup = Accepted | Absent | Uncertain | Raised

  datatype Capabilities = Capabilities(localCapture: bool, authoritativeAbsence: bool)

  /** `CaptureBackend.lookup`. */
  function CaptureLookup(i: Intent): Lookup {
    if i.capture.None? then (if i.row.erasedAt.Some? then Uncertain else Absent)
    else if i.capture.value.digest == i.row.deliveryDigest then Accepted
    else Uncertain
  }

  predicate Expired(i: Intent, now: Time) {
    i.row.state == Queued && i.row.leaseUntil.Some? && i.row.leaseUntil.value <= now
  }

  /** The outcome `recover` acts on: absence counts only from an adapter that is authoritative about it. */
  function Reconciled(answer: Lookup, caps: Capabilities, preSend: bool): Lookup {
    if preSend then Absent
    else if answer == Raised then Uncertain
    else if answer == Absent && !(caps.authoritativeAbsence && caps.localCapture) then Uncertain
    else answer
  }

  /** One iteration of `recover`; None leaves the row as it is. */
  function RecoverIntent(cfg: Settings, i: Intent, caps: Capabilities, answer: Lookup, now: Time): Option<Intent> {
    if !Expired(i, now) && i.row.state != AcceptanceUncertain then None
    else if Latest(i).None? then None
    else
      var n := Latest(i).value;
      var preSend := Expired(i, now) && i.attempts[n].phase == Claimed;
      match Reconciled(answer, caps, preSend)
      case Accepted =>
        Some(Finish(cfg, i, n, ProviderAccepted, if caps.localCapture then CapturedLocal else AcceptedByProvider, now, preSend))
      case Absent =>
        Some(Finish(cfg, i, n, if preSend || i.row.attemptCount < cfg.maxAttempts then Queued else Failed,
                    if preSend then ClaimRecovered else LeaseRecovered, now, preSend))
      case _ =>
        if i.row.state == AcceptanceUncertain then None
        else Some(Finish(cfg, i, n, AcceptanceUncertain, AcceptanceUnknown, now, preSend))
  }

  function Recover(s: Db, id: Id, caps: Capabilities, answer: Lookup, now: Time): (Db, bool) {
    var s := s.(clock := now);
    if id !in s.intents then (s, false)
    else match RecoverIntent(s.cfg, s.intents[id], caps, answer, now)
         case None => (s, false)
         case Some(i) => (Put(s, id, i), true)
  }

  /** What `recover` scans for, and in which order: expired leases before uncertain rows. */
  function RecoverIds(intents: map<Id, Intent>, now: Time): set<Id> {
    set id | id in intents && (Expired(intents[id], now) || intents[id].row.state == AcceptanceUncertain)
  }

  function RecoverRank(intents: map<Id, Intent>): Id -> Rank {
    (id: Id) => if id in intents then
                  Rank(if intents[id].row.state == Queued then 0 else 1, intents[id].row.createdAt, id)
                else Rank(0, 0, id)
  }

  // ---------------------------------------------------------------- housekeeping

  predicate Aged(i: Intent, cutoff: Time) {
    Terminal(i.row.state) && i.row.terminalAt.Some? && i.row.terminalAt.value <= cutoff
  }

  predicate ChallengeDead(s: Db, row: Row, now: Time) {
    row.challenge.Some?
    && (row.recipient !in s.addresses
        || var a := s.addresses[row.recipient];
           a.challenge != row.challenge || a.digest.None? || a.expiresAt.None? || a.expiresAt.value <= now)
  }

  function EraseIntent(i: Intent, cutoff: Time, now: Time): Intent {
    var i := if i.row.state in {Requested, Queued} then Close(i, Suppressed, ChallengeEnded, now) else i;
    var i := i.(row := i.row.(payload := ERASED, erasedAt := Some(now)));
    if Aged(i, cutoff) then i.(capture := None, attempts := map[])
    else i.(capture := if i.capture.Some? then Some(i.capture.value.(content := ERASED)) else None)
  }

  function ClearedAddress(a: AddressRecord): AddressRecord {
    a.(challenge := None, digest := None, pending := "", expiresAt := None)
  }

  /** One iteration of the erasing loop of `housekeeping`. */
  function Erase(s: Db, id: Id, cutoff: Time, now: Time): (Db, bool) {
    var s := s.(clock := now);
    if id !in s.intents then (s, false)
    else
      var i := s.intents[id];
      var p := i.row.recipient;
      if i.row.lease.Some? || i.row.erasedAt.Some? || i.row.state == AcceptanceUncertain then (s, false)
      else if !ChallengeDead(s, i.row, now) && !Aged(i, cutoff) then (s, false)
      else
        var s' := Put(s, id, EraseIntent(i, cutoff, now));
        if p in s.addresses && s.addresses[p].challenge == i.row.challenge
           && s.addresses[p].expiresAt.Some? && s.addresses[p].expiresAt.value <= now
        then (s'.(addresses := s.addresses[p := ClearedAddress(s.addresses[p])]), true)
        else (s', true)
  }

  /** What `housekeeping` scans for. */
  predicate Erasable(s: Db, i: Intent, cutoff: Time, now: Time) {
    i.row.erasedAt.None? && i.row.lease.None? && i.row.state != AcceptanceUncertain
    && (Aged(i, cutoff) || ChallengeDead(s, i.row, now))
  }

  function AgeRank(intents: map<Id, Intent>): Id -> Rank {
    (id: Id) => Rank(0, if id in intents then intents[id].row.createdAt else 0, id)
  }

  predicate OldAttempt(i: Intent, n: nat, cutoff: Time) {
    n in i.attempts && Terminal(i.row.state) && i.attempts[n].finishedAt.Some? && i.attempts[n].finishedAt.value <= cutoff
  }

  predicate OldCapture(i: Intent, cutoff: Time) {
    Terminal(i.row.state) && i.capture.Some? && i.capture.value.capturedAt <= cutoff
  }

  /** The three bulk deletions that close `housekeeping`; `chosen` is what the bounded selects returned. */
  function DropAttempts(s: Db, chosen: set<(Id, nat)>, cutoff: Time): Db {
    s.(intents := map id | id in s.intents ::
         s.intents[id].(attempts := map n | n in s.intents[id].attempts
                                            && !((id, n) in chosen && OldAttempt(s.intents[id], n, cutoff))
                                    :: s.intents[id].attempts[n]))
  }

  function DropCaptures(s: Db, chosen: set<Id>, cutoff: Time): Db {
    s.(intents := map id | id in s.intents ::
         if id in chosen && OldCapture(s.intents[id], cutoff) then s.intents[id].(capture := None) else s.intents[id])
  }

  function DropBuckets(s: Db, cutoff: Time): Db {
    s.(buckets := map d | d in s.buckets && Day(cutoff) <= d :: s.buckets[d])
  }

  // ---------------------------------------------------------------- requests

  datatype Reply = Declined | Stored(intent: Id)

  /** The rows with a request key; the column is unique, so there is at most one. */
  function WithKey(s: Db, key: string): set<Id> { set j | j in s.intents && s.intents[j].row.key == key }

  /** `_enqueue`: `get_or_create` on the request key, then the fingerprint comparison. */
  function Enqueue(s: Db, id: Id, row: Row): (Db, Reply) {
    if !(1 <= |row.key| <= 160) then (s, Declined)
    else if WithKey(s, row.key) != {} then
      var j := Highest(WithKey(s, row.key));
      if s.intents[j].row.fingerprint != row.fingerprint then (s, Declined) else (s, Stored(j))
    else (Put(s, id, Intent(row, map[], None)), Stored(id))
  }

  function NewRow(key: string, fingerprint: Fingerprint, recipient: Id, category: Category, challenge: Option<Id>,
                  payload: Payload, created: Time, ready: Time): Row {
    Row(key, fingerprint, MessageDigest(payload), recipient, category, challenge.Some?, challenge, payload, Requested,
        created, ready, None, None, 0, NoCode, None, None)
  }

  /** `_suppress_verification`: the bulk update of the identity's waiting verification rows. */
  function SuppressVerification(s: Db, identity: Id, now: Time): Db {
    s.(intents := map id | id in s.intents ::
         if s.intents[id].row.recipient == identity && s.intents[id].row.challenge.Some? && Open(s.intents[id])
         then Close(s.intents[id], Suppressed, ChallengeEnded, now) else s.intents[id])
  }

  /** The inputs of `request_verification` and what it draws or reads from outside: `admitted` is an
      active identity with a well-formed address and request reference, `templateOk` an unchanged template. */
  datatype VerificationRequest =
    VerificationRequest(identity: Id, admitted: bool, templateOk: bool, key: string, payload: Payload,
                        intent: Id, challenge: Id, token: string, created: Time)

  predicate TooSoon(cfg: Settings, a: AddressRecord, now: Time) {
    (a.lastRequestedAt.Some? && now < a.lastRequestedAt.value + cfg.resendSeconds)
    || (a.requestDay == Some(Day(now)) && a.requestsToday >= cfg.verificationsPerDay)
  }

  function Challenged(cfg: Settings, a: AddressRecord, q: VerificationRequest, now: Time): AddressRecord {
    a.(pending := q.payload.to, digest := Some(TokenDigest(q.token)), challenge := Some(q.challenge),
       expiresAt := Some(now + cfg.challengeSeconds),
       requestsToday := if a.requestDay == Some(Day(now)) then a.requestsToday + 1 else 1,
       requestDay := Some(Day(now)), lastRequestedAt := Some(now))
  }

  function AddressOf(s: Db, identity: Id): AddressRecord {
    if identity in s.addresses then s.addresses[identity] else NEW_ADDRESS
  }

  /** The state in which a granted request reaches `_enqueue`. */
  function Issue(s: Db, q: VerificationRequest, now: Time): Db {
    SuppressVerification(s, q.identity, now)
    .(addresses := s.addresses[q.identity := Challenged(s.cfg, AddressOf(s, q.identity), q, now)],
      past := s.past.(issues := s.past.issues[q.identity := s.Issues(q.identity) + [now]],
                      slots := s.past.slots[q.challenge := ChallengeOf(q.identity)]))
  }

  function VerificationRow(q: VerificationRequest, now: Time): Row {
    NewRow(q.key, VerificationPrint(q.identity, q.payload.to, q.key), q.identity, Essential,
           Some(q.challenge), q.payload, q.created, now)
  }

  function RequestVerification(s: Db, q: VerificationRequest, now: Time): (Db, Reply) {
    var s := s.(clock := now);
    var fingerprint := VerificationPrint(q.identity, q.payload.to, q.key);
    if !q.admitted then (s, Declined)
    else if WithKey(s, q.key) != {} then
      var j := Highest(WithKey(s, q.key));
      if s.intents[j].row.fingerprint != fingerprint then (s, Declined) else (s, Stored(j))
    else if TooSoon(s.cfg, AddressOf(s, q.identity), now) || !q.templateOk then (s, Declined)
    else
      var (s', r) := Enqueue(Issue(s, q, now), q.intent, VerificationRow(q, now));
      if r == Declined then (s, Declined) else (s', r)
  }

  function Verified(a: AddressRecord, now: Time): AddressRecord {
    a.(verified := a.pending, verifiedAt := Some(now), pending := "", digest := None, challenge := None, expiresAt := None)
  }

  predicate TokenProves(a: AddressRecord, challenge: Id, token: string, now: Time) {
    a.digest.Some? && a.challenge == Some(challenge) && a.expiresAt.Some? && now < a.expiresAt.value
    && |token| <= 128 && a.digest.value == TokenDigest(token)
  }

  function VerifyAddress(s: Db, identity: Id, active: bool, challenge: Id, token: string, now: Time): (Db, bool) {
    var s := s.(clock := now);
    if !active || identity !in s.addresses || !TokenProves(s.addresses[identity], challenge, token, now) then (s, false)
    else
      (SuppressVerification(s, identity, now)
       .(addresses := s.addresses[identity := Verified(s.addresses[identity], now)],
         past := s.past.(verified := s.past.verified + multiset{challenge})), true)
  }

  /** `request_message`: `approved` is everything decided outside the outbox (category, template,
      origin, context, identity, audience); the payload goes to the recipient's verified address. */
  datatype NoticeRequest =
    NoticeRequest(recipient: Id, approved: bool, category: Category, key: string, sender: string,
                  subject: string, body: string, act: Act, intent: Id, created: Time)

  function NoticePayload(s: Db, q: NoticeRequest): Payload {
    Payload(AddressOf(s, q.recipient).verified, q.sender, q.subject, q.body)
  }

  function RequestMessage(s: Db, q: NoticeRequest, now: Time): (Db, Reply) {
    var s := s.(clock := now);
    if !q.approved || AddressOf(s, q.recipient).verified == "" then (s, Declined)
    else
      var payload := NoticePayload(s, q);
      Enqueue(s, q.intent, NewRow(q.key, NoticePrint(q.recipient, q.category, payload, q.act), q.recipient,
                                  q.category, None, payload, q.created, now))
  }
}
