/** When a request is granted and what it then stores, said on the recorded past and on the columns of the rows. */
module OutboxRequesting {
  import opened Prelude
  import opened Ordering
  import opened OutboxModel
  import opened OutboxTransactions
  import opened OutboxInvariant
  import opened OutboxRuns
  import opened OutboxTheorems
  import opened OutboxChallenges

  predicate KeyTaken(s: Db, key: string) { exists id :: id in s.intents && s.intents[id].row.key == key }

  /** A row that was asked for and has not been touched since. */
  function Untouched(row: Row): Row {
    row.(state := Requested, lease := None, leaseUntil := None, attemptCount := 0, lastCode := NoCode, terminalAt := None,
         erasedAt := None)
  }

  /** The identity may ask for one more challenge: every earlier one was issued at least the resend interval ago, and
      fewer than the daily limit today. */
  ghost predicate MayAsk(s: Db, identity: Id, now: Time) {
    && (forall t | t in s.Issues(identity) :: t + s.cfg.resendSeconds <= now)
    && CountDay(s.Issues(identity), Day(now)) < s.cfg.verificationsPerDay
  }

  /** Over every run: a verification request under an unused key is granted if and only if it is admitted, its key is
      lawful, the template is as it was, and the challenges issued to the identity in the past leave room for one. Any
      other such request is declined and leaves no trace. */
  lemma VerificationGrantedIff(run: seq<Db>, i: nat, q: VerificationRequest, now: Time)
    requires FromEmpty(run) && i < |run| && Possible(run[i], DoRequestVerification(q, now)) && !KeyTaken(run[i], q.key)
    ensures var (t, r) := RequestVerification(run[i], q, now);
            && (r == Stored(q.intent) <==>
                  q.admitted && q.templateOk && 1 <= |q.key| <= 160 && MayAsk(run[i], q.identity, now))
            && (r != Stored(q.intent) ==> r == Declined && t == run[i].(clock := now))
  {
    hide FromEmpty; hide Inv; hide Issue; hide TooSoon; hide MayAsk; hide Highest;
    ReachableOk(run, i);
    var s := run[i].(clock := now);
    assert WithKey(s, q.key) == {};
    SoonIff(run[i], q.identity, now);
    IssueAddsNoKey(s, q, now);
  }

  lemma IssueAddsNoKey(s: Db, q: VerificationRequest, now: Time)
    ensures WithKey(Issue(s, q, now), q.key) == WithKey(s, q.key)
  {
    hide Challenged;
  }

  lemma SoonIff(s: Db, identity: Id, now: Time)
    requires Inv(s) && s.clock <= now
    ensures !TooSoon(s.cfg, AddressOf(s, identity), now) <==> MayAsk(s, identity, now)
  {
    hide IntentsOk; hide QuotaOk; hide KeysOk; hide CountDay;
    NewAddressOk(s, identity);
    var ts := s.Issues(identity);
    assert IssuesOk(s.cfg, ts, AddressOf(s, identity), s.clock);
    if ts == [] {
      NoneCounted(Day(now));
    } else {
      var last := ts[|ts| - 1];
      assert last in ts && Day(last) <= Day(now);
      forall t | t in ts ensures t <= last { var x :| 0 <= x < |ts| && ts[x] == t; }
    }
  }

  lemma NoneCounted(d: int)
    ensures CountDay([], d) == 0
  {
  }

  /** What a granted verification request leaves: its untouched row, ready at once; the new challenge, on record as
      issued now; the identity's other waiting verification rows closed; and nothing else changed. */
  lemma VerificationStored(s: Db, q: VerificationRequest, now: Time)
    requires q.intent !in s.intents && RequestVerification(s, q, now).1 == Stored(q.intent)
    ensures var t := RequestVerification(s, q, now).0;
            && t.intents.Keys == s.intents.Keys + {q.intent} && WaitingClosed(s, t, q.identity, now)
            && var made := t.intents[q.intent];
            && made.attempts == map[] && made.capture == None && made.row == Untouched(made.row)
            && made.row.key == q.key && made.row.recipient == q.identity && made.row.category == Essential && made.row.verifies
            && made.row.challenge == Some(q.challenge) && made.row.payload == q.payload && made.row.readyAt == now
            && made.row.deliveryDigest == MessageDigest(q.payload) && made.row.createdAt == q.created
            && t.Issues(q.identity) == s.Issues(q.identity) + [now]
            && t.buckets == s.buckets && t.cfg == s.cfg && t.clock == now
            && (forall p | p in s.addresses && p != q.identity :: p in t.addresses && t.addresses[p] == s.addresses[p])
            && t.addresses[q.identity].verified == AddressOf(s, q.identity).verified
  {
    hide Highest; hide TooSoon;
    RequestIsIssued(s, q, now);
  }

  /** A message under an unused key is stored if and only if it is approved, the recipient has a verified address, and
      the key is lawful; the row is untouched, ready at once, and goes to that very address. */
  lemma MessageStoredIff(s: Db, n: NoticeRequest, now: Time)
    requires n.intent !in s.intents && !KeyTaken(s, n.key)
    ensures var (t, r) := RequestMessage(s, n, now);
            && (r == Stored(n.intent) <==>
                  n.approved && 1 <= |n.key| <= 160 && n.recipient in s.addresses && s.addresses[n.recipient].verified != "")
            && (r != Stored(n.intent) ==> r == Declined && t == s.(clock := now))
    ensures var (t, r) := RequestMessage(s, n, now);
            r == Stored(n.intent) ==>
              && n.intent in t.intents && t == s.(clock := now, intents := s.intents[n.intent := t.intents[n.intent]])
              && var made := t.intents[n.intent];
              && made.attempts == map[] && made.capture == None && made.row == Untouched(made.row)
              && made.row.key == n.key && made.row.recipient == n.recipient && made.row.category == n.category
              && !made.row.verifies && made.row.challenge == None && made.row.readyAt == now && made.row.createdAt == n.created
              && made.row.payload == Payload(s.addresses[n.recipient].verified, n.sender, n.subject, n.body)
              && made.row.deliveryDigest == MessageDigest(made.row.payload)
  {
    assert WithKey(s.(clock := now), n.key) == {};
  }
}
