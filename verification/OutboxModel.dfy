/** The rows of the email outbox: intents with their delivery attempts and local capture,
    daily capacity, and each identity's address record.

    An attempt and a capture belong to exactly one intent (a foreign key with a unique number,
    and a one-to-one key), so both are kept inside the intent that owns them. */
module OutboxModel {
  import opened Prelude

  type Id = nat    // UUIDs, compared only for equality (and, as primary keys, for order)
  type Time = int  // seconds of database time

  const DAY_SECONDS := 86400

  function Day(t: Time): int { t / DAY_SECONDS }

  datatype Config = Config(maxAttempts: nat, capacity: nat, reserve: nat, leaseSeconds: nat,
                           retrySeconds: nat, retentionDays: nat, challengeSeconds: nat,
                           verificationsPerDay: nat, resendSeconds: nat)

  /** Every setting is read through `number`, whose minimum is 1. */
  type Settings = c: Config | 1 <= c.maxAttempts && 1 <= c.capacity && 1 <= c.reserve && 1 <= c.leaseSeconds
                              && 1 <= c.retrySeconds && 1 <= c.retentionDays && 1 <= c.challengeSeconds
                              && 1 <= c.verificationsPerDay && 1 <= c.resendSeconds
    witness Config(3, 1000, 100, 60, 60, 180, 1800, 5, 60)

  datatype Category = Essential | Notice

  datatype State = Requested | Queued | ProviderAccepted | Failed | Suppressed | AcceptanceUncertain

  predicate Terminal(s: State) { s in {ProviderAccepted, Failed, Suppressed} }

  datatype Code =
    | NoCode | ChallengeEnded | AttemptsExhausted | AudienceCheckFailed | AddressOrAudienceChanged
    | BackendSuppressed | NotAccepted | AcceptanceUnknown | CapturedLocal | AcceptedByProvider
    | ClaimRecovered | LeaseRecovered

  datatype Payload = Payload(to: string, sender: string, subject: string, body: string)

  const ERASED := Payload("", "", "", "")

  /** Digests are injective: a digest is modelled as its pre-image. */
  datatype MessageDigest = MessageDigest(message: Payload)
  datatype TokenDigest = TokenDigest(token: string)

  /** The recorded act a notice reports: its template, the act's own reference, its organisation and its record. */
  datatype Act = Act(template: string, version: string, templateDigest: string, origin: string, organisation: Option<Id>,
                     record: string)

  datatype Fingerprint =
    | VerificationPrint(identity: Id, address: string, key: string)
    | NoticePrint(recipient: Id, category: Category, payload: Payload, act: Act)

  datatype Row = Row(key: string, fingerprint: Fingerprint, deliveryDigest: MessageDigest,
                     recipient: Id, category: Category, verifies: bool, challenge: Option<Id>,
                     payload: Payload, state: State, createdAt: Time, readyAt: Time,
                     lease: Option<Id>, leaseUntil: Option<Time>, attemptCount: nat,
                     lastCode: Code, terminalAt: Option<Time>, erasedAt: Option<Time>)

  datatype Phase = Claimed | Started | Finished

  datatype Attempt = Attempt(lease: Id, phase: Phase, finishedAt: Option<Time>, code: Code)

  datatype Capture = Capture(digest: MessageDigest, capturedAt: Time, content: Payload)

  datatype Intent = Intent(row: Row, attempts: map<nat, Attempt>, capture: Option<Capture>)

  datatype Bucket = Bucket(total: nat, notice: nat)

  datatype AddressRecord = AddressRecord(verified: string, verifiedAt: Option<Time>, pending: string,
                                         digest: Option<TokenDigest>, challenge: Option<Id>,
                                         expiresAt: Option<Time>, lastRequestedAt: Option<Time>,
                                         requestDay: Option<int>, requestsToday: nat)

  const NEW_ADDRESS := AddressRecord("", None, "", None, None, None, None, None, 0)

  /** What a freshly drawn identifier was used for. */
  datatype Slot = LeaseOf(intent: Id, number: nat) | ChallengeOf(identity: Id)

  datatype ClaimMade = ClaimMade(day: int, category: Category)

  /** What has happened so far in a run. No operation reads it; it only lets us speak about the past. */
  datatype History = History(claims: multiset<ClaimMade>, sends: multiset<Id>, captures: multiset<Id>,
                             verified: multiset<Id>, issues: map<Id, seq<Time>>, slots: map<Id, Slot>)

  datatype Db = Db(cfg: Settings, clock: Time, intents: map<Id, Intent>, buckets: map<int, Bucket>,
                   addresses: map<Id, AddressRecord>, past: History)
  {
    function Issues(identity: Id): seq<Time> {
      if identity in past.issues then past.issues[identity] else []
    }
  }

  function EmptyDb(cfg: Settings, start: Time): Db {
    Db(cfg, start, map[], map[], map[],
       History(multiset{}, multiset{}, multiset{}, multiset{}, map[], map[]))
  }
}
