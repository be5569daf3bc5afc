/** The worker and the service as they run: methods that update the tables in place, each proved to have
    exactly the effect of its transaction function. */
module OutboxStore {
  import opened Prelude
  import opened Ordering
  import opened OutboxModel
  import T = OutboxTransactions
  import opened OutboxInvariant
  import opened OutboxRuns
  import opened OutboxTheorems
  import opened OutboxChallenges

  class Store {
    const cfg: Settings
    const draws: nat -> Id  // the UUIDs that this process will draw, in order
    var clock: Time
    var intents: map<Id, Intent>
    var buckets: map<int, Bucket>
    var addresses: map<Id, AddressRecord>
    ghost var past: History

    ghost function View(): Db
      reads this
    {
      Db(cfg, clock, intents, buckets, addresses, past)
    }

    constructor (cfg: Settings, draws: nat -> Id, start: Time)
      ensures View() == EmptyDb(cfg, start) && Inv(View()) && this.draws == draws
    {
      this.cfg, this.draws := cfg, draws;
      clock := start;
      intents, buckets, addresses := map[], map[], map[];
      past := EmptyDb(cfg, start).past;
      new;
      EmptyOk(cfg, start);
    }

    /** No UUID is drawn twice, so nobody else draws one of this process. */
    ghost predicate NotMine(a: History, b: History) { forall k: nat | draws(k) in b.slots :: draws(k) in a.slots }

    lemma NoneDrawn(a: History)
      ensures NotMine(a, a)
    {
    }

    lemma NoneDrawnJoin(a: History, b: History, c: History)
      requires NotMine(a, b) && NotMine(b, c)
      ensures NotMine(a, c)
    {
    }

    /** Whatever other workers and requesters commit between two transactions of this one. A caller knows only what
        the contract says. */
    method Interfere()
      requires Inv(View())
      modifies this
      ensures Reach(old(View()), View()) && Inv(View()) && Kept(old(View()), View()) && NotMine(old(past), past)
    {
      hide Inv; hide Kept;
      ghost var s := View();
      ReachSelf(s);
      ReachKeeps(s, s);
    }

    /** `clock_timestamp()`. */
    method DatabaseNow() returns (now: Time)
      modifies this`clock
      ensures old(clock) <= now == clock
    {
      now :| clock <= now;
      clock := now;
    }

    // -------------------------------------------------------------- claim

    method Claim(readings: nat -> Time, lease: Id) returns (r: T.ClaimResult)
      requires Inv(View()) && lease !in past.slots && Monotone(readings, clock)
      modifies this
      ensures (View(), r) == T.Claim(old(View()), readings, lease)
      ensures Inv(View()) && Kept(old(View()), View())
    {
      hide Inv; hide Kept; hide T.ClaimTurn; hide T.ClaimFrom;
      ClaimKeeps(View(), readings, lease);
      ghost var start := View();
      var savedIntents, savedBuckets := intents, buckets;
      var k := 0;
      while true
        invariant k >= 0 && Inv(View()) && clock <= readings(k) && past == start.past && addresses == start.addresses
        invariant T.ClaimFrom(View(), readings, k, lease) == T.ClaimFrom(start, readings, 0, lease)
        decreases |T.OpenIds(View())|
      {
        T.ClaimTurns(View(), readings, k, lease);
        var turn := ClaimOnce(readings(k), lease);
        if turn == Some(T.Misconfigured) {
          intents, buckets := savedIntents, savedBuckets;  // the exception rolls the transaction back
        }
        if turn.Some? { return turn.value; }
        k := k + 1;
      }
    }

    /** One turn of the loop of `claim`. */
    method ClaimOnce(now: Time, lease: Id) returns (turn: Option<T.ClaimResult>)
      requires Inv(View()) && lease !in past.slots && clock <= now
      modifies this
      ensures (View(), turn) == T.ClaimTurn(old(View()), now, lease)
      ensures clock == now && addresses == old(addresses)
      ensures turn.None? ==> Inv(View()) && |T.OpenIds(View())| < |old(T.OpenIds(View()))|
      ensures turn.None? || turn == Some(T.Misconfigured) ==> past == old(past)
    {
      hide Inv; hide Kept; hide T.RowTurn; hide T.Open; hide First;
      TickKeeps(View(), now);
      ghost var waiting := T.OpenIds(View());
      clock := now;
      assert T.OpenIds(View()) == waiting;
      var eligible := set id | id in intents && T.Eligible(intents[id], now);
      assert T.EligibleIds(View(), now) == eligible;
      if eligible == {} { return Some(T.NoWork); }
      turn := ClaimRow(First(eligible, T.ClaimRank(intents)), now, lease);
    }

    method ClaimRow(id: Id, now: Time, lease: Id) returns (turn: Option<T.ClaimResult>)
      requires Inv(View()) && lease !in past.slots && clock == now && id in intents && T.Open(intents[id])
      modifies this
      ensures (View(), turn) == T.RowTurn(old(View()), id, now, lease)
      ensures clock == now && addresses == old(addresses)
      ensures turn.None? ==> Inv(View()) && |T.OpenIds(View())| < |old(T.OpenIds(View()))|
      ensures turn.None? || turn == Some(T.Misconfigured) ==> past == old(past)
    {
      hide Inv; hide T.Judge; hide T.Leased; hide T.Latest; hide T.ChallengeLive; hide T.OpenIds; hide T.Open;
      hide T.Full; hide T.Charge;
      ghost var s := View();
      var row := intents[id].row;
      JudgementOf(s, intents[id], now);
      if row.challenge.Some? && !LiveChallenge(row, now) {
        row := row.(state := Suppressed);
        row := row.(lastCode := ChallengeEnded);
        row := row.(terminalAt := Some(now));
        Closing(s, id, Suppressed, ChallengeEnded, now);
        intents := intents[id := intents[id].(row := row)];
        return None;
      }
      var previous := T.Latest(intents[id]);
      var resume := previous.Some? && intents[id].attempts[previous.value].code == ClaimRecovered;
      if row.attemptCount >= cfg.maxAttempts && !resume {
        row := row.(state := Failed);
        row := row.(lastCode := AttemptsExhausted);
        row := row.(terminalAt := Some(now));
        Closing(s, id, Failed, AttemptsExhausted, now);
        intents := intents[id := intents[id].(row := row)];
        return None;
      }
      if cfg.reserve > cfg.capacity { return Some(T.Misconfigured); }
      var taken := TakeCapacity(row.category, now);
      if !taken { return Some(T.NoWork); }
      NumberIsFree(s, id);
      TakeLease(id, previous, resume, lease, now);
      past := past.(claims := past.claims + multiset{ClaimMade(Day(now), row.category)},
                    slots := past.slots[lease := LeaseOf(id, intents[id].row.attemptCount)]);
      assert intents[id] == T.Leased(cfg, s.intents[id], lease, now);
      return Some(T.Work(id, lease));
    }

    /** The day's capacity row, created when missing, is charged unless its category is used up. */
    method TakeCapacity(category: Category, now: Time) returns (taken: bool)
      modifies this`buckets
      ensures var b := T.BucketOf(old(View()), Day(now));
              && taken == !T.Full(cfg, b, category)
              && buckets == old(buckets)[Day(now) := if taken then T.Charge(b, category) else b]
    {
      var day := Day(now);
      if day !in buckets { buckets := buckets[day := Bucket(0, 0)]; }
      var bucket := buckets[day];
      assert buckets == buckets[day := bucket];
      if bucket.total >= cfg.capacity || (category == Notice && bucket.notice >= cfg.capacity - cfg.reserve) {
        return false;
      }
      bucket := bucket.(total := bucket.total + 1);
      bucket := bucket.(notice := bucket.notice + if category == Notice then 1 else 0);
      buckets := buckets[day := bucket];
      return true;
    }

    /** The row and attempt updates of a granted claim. */
    method TakeLease(id: Id, previous: Option<nat>, resume: bool, lease: Id, now: Time)
      requires id in intents && previous == T.Latest(intents[id]) && resume == T.Resumable(intents[id])
      requires intents[id].row.attemptCount + 1 !in intents[id].attempts  // unique (intent, number)
      modifies this`intents
      ensures intents == old(intents)[id := T.Leased(cfg, old(intents)[id], lease, now)]
    {
      var row := intents[id].row;
      row := row.(state := Queued);
      if !resume { row := row.(attemptCount := row.attemptCount + 1); }
      row := row.(lease := Some(lease));
      row := row.(leaseUntil := Some(now + cfg.leaseSeconds));
      intents := intents[id := intents[id].(row := row)];
      var attempts := intents[id].attempts;
      if resume {
        var attempt := attempts[previous.value];
        attempt := attempt.(lease := lease);
        attempt := attempt.(phase := Claimed);
        attempt := attempt.(finishedAt := None);
        attempt := attempt.(code := NoCode);
        attempts := attempts[previous.value := attempt];
      } else {
        assert row.attemptCount !in attempts;
        attempts := attempts[row.attemptCount := Attempt(lease, Claimed, None, NoCode)];
      }
      intents := intents[id := intents[id].(attempts := attempts)];
    }

    /** One more possible transaction after s. */
    static lemma Follow(s0: Db, s: Db, t: Db, a: Action)
      requires Inv(s) && Reach(s0, s) && Kept(s0, s) && Possible(s, a) && t == Apply(s, a)
      ensures Reach(s0, t) && Inv(t) && Kept(s0, t)
    {
      hide Inv; hide Kept; hide Reach; hide Possible; hide Apply;
      ReachStep(s0, s, a);
      ApplyKeeps(s, a);
      KeptTransitive(s0, s, t);
    }

    static lemma Closing(s: Db, id: Id, state: State, code: Code, now: Time)
      requires Inv(s) && id in s.intents && T.Open(s.intents[id]) && state in {Failed, Suppressed} && s.clock == now
      ensures Inv(T.Put(s, id, T.Close(s.intents[id], state, code, now)))
      ensures |T.OpenIds(T.Put(s, id, T.Close(s.intents[id], state, code, now)))| < |T.OpenIds(s)|
    {
      hide Inv; hide Kept;
      CloseKeeps(s, id, state, code, now);
      T.CloseShrinks(s, id, state, code, now);
      assert s.(clock := now) == s;
    }

    static lemma JudgementOf(s: Db, i: Intent, now: Time)
      ensures T.Judge(s, i, now) ==
              if i.row.challenge.Some? && !T.ChallengeLive(s, i.row, now) then T.ChallengeOver
              else if i.row.attemptCount >= s.cfg.maxAttempts && !T.Resumable(i) then T.BudgetSpent
              else if s.cfg.reserve > s.cfg.capacity then T.ReserveTooLarge
              else if T.Full(s.cfg, T.BucketOf(s, Day(now)), i.row.category) then T.NoCapacity
              else T.Grant
    {
    }

    static lemma NumberIsFree(s: Db, id: Id)
      requires Inv(s) && id in s.intents
      ensures s.intents[id].row.attemptCount + 1 !in s.intents[id].attempts
    {
      IntentOf(s, id);
      assert forall k | k in s.intents[id].attempts :: AttemptOk(s.intents[id], k);
    }

    function LiveChallenge(row: Row, now: Time): (live: bool)
      reads this
      ensures live == T.ChallengeLive(View(), row, now)
    {
      row.recipient in addresses
      && var a := addresses[row.recipient];
      a.challenge == row.challenge && a.expiresAt.Some? && a.expiresAt.value > now
      && a.pending == row.payload.to && a.digest.Some?
    }

    // -------------------------------------------------------------- deliver

    /** `_finish`. */
    method Finish(id: Id, n: nat, state: State, code: Code, now: Time, immediate: bool)
      requires id in intents && n in intents[id].attempts
      modifies this`intents
      ensures intents == old(intents)[id := T.Finish(cfg, old(intents)[id], n, state, code, now, immediate)]
    {
      var row := intents[id].row;
      row := row.(state := state);
      row := row.(lastCode := code);
      row := row.(lease := None);
      row := row.(leaseUntil := None);
      row := row.(terminalAt := if Terminal(state) then Some(now) else None);
      row := row.(readyAt := if immediate then now else now + cfg.retrySeconds);
      intents := intents[id := intents[id].(row := row)];
      var attempt := intents[id].attempts[n];
      attempt := attempt.(phase := Finished);
      attempt := attempt.(finishedAt := Some(now));
      attempt := attempt.(code := code);
      intents := intents[id := intents[id].(attempts := intents[id].attempts[n := attempt])];
    }

    /** `_allowed`. */
    function Allowed(row: Row, e: T.Surroundings, now: Time): (a: T.Audience)
      reads this
      ensures a == T.Allowed(View(), row, e, now)
    {
      if e.barred || row.erasedAt.Some? then T.Refuses
      else if row.recipient !in addresses then T.Refuses
      else
        var address := addresses[row.recipient];
        if row.verifies then
          (if row.challenge == address.challenge && address.digest.Some? && address.expiresAt.Some?
              && now < address.expiresAt.value && row.payload.to == address.pending
           then T.Qualifies else T.Refuses)
        else if address.verified == "" || row.payload.to != address.verified then T.Refuses
        else e.audience
    }

    /** `CaptureBackend.send_messages`: captures message by message; a refusal leaves the undoing to the savepoint. */
    method SendMessages(batch: seq<T.Outgoing>, stamp: Time) returns (r: Result<nat, Code>)
      modifies this`intents
      ensures match T.CaptureAll(old(intents), batch, stamp)
              case Some(after) => r == Ok(|batch|) && intents == after
              case None => r == Err(NotAccepted)
    {
      var count := 0;
      while count < |batch|
        invariant 0 <= count <= |batch|
        invariant T.CaptureAll(intents, batch[count..], stamp) == T.CaptureAll(old(intents), batch, stamp)
      {
        var message := batch[count];
        assert batch[count..][1..] == batch[count + 1..];
        if message.intent.None? || message.intent.value !in intents { return Err(NotAccepted); }
        if !message.plain { return Err(NotAccepted); }
        var id := message.intent.value;
        if intents[id].capture.None? {
          intents := intents[id := intents[id].(capture :=
                       Some(Capture(MessageDigest(message.message), stamp, message.message)))];
        }
        if intents[id].capture.value.digest != MessageDigest(message.message) { return Err(NotAccepted); }
        assert intents[id := intents[id]] == intents;
        count := count + 1;
      }
      return Ok(count);
    }

    method Deliver(id: Id, lease: Id, now: Time, later: Time, e: T.Surroundings) returns (delivered: Option<bool>)
      requires Inv(View()) && clock <= now <= later
      modifies this
      ensures (View(), delivered) == T.Deliver(old(View()), id, lease, now, later, e)
      ensures Inv(View()) && Kept(old(View()), View())
    {
      hide Inv; hide Kept; hide IntentOk; hide T.Sent;
      DeliverKeeps(View(), id, lease, now, later, e);
      TickKeeps(View(), now);
      clock := now;
      if id !in intents { return None; }
      var row := intents[id].row;
      if row.state != Queued || row.lease != Some(lease) || row.leaseUntil.None? || row.leaseUntil.value <= now {
        return Some(false);
      }
      var carriers := set n | n in intents[id].attempts && T.CarriedBy(intents[id], lease, n);
      IntentOf(View(), id);
      CarrierFound(cfg, id, intents[id], past);
      CarrierIsNewest(cfg, id, intents[id], past);
      var n := Highest(carriers);
      if intents[id].attempts[n].phase != Claimed { return Some(false); }
      var verdict := Allowed(row, e, now);
      if verdict == T.CheckRaises {
        Finish(id, n, Failed, AudienceCheckFailed, now, false);
        return Some(false);
      }
      if verdict == T.Refuses {
        Finish(id, n, Suppressed, AddressOrAudienceChanged, now, false);
        return Some(false);
      }
      var accepted := SendUnderLease(id, n, e, later);
      return Some(accepted);
    }

    /** The sending block of `deliver`: the STARTED marker, the savepoint around the backend, the outcome. */
    method SendUnderLease(id: Id, n: nat, e: T.Surroundings, later: Time) returns (accepted: bool)
      requires id in intents && n in intents[id].attempts
      modifies this
      ensures View() == T.Sent(old(View()), id, n, e, later)
      ensures accepted == (View().intents[id].row.state == ProviderAccepted)
    {
      ghost var before := View();
      var attempt := intents[id].attempts[n].(phase := Started);
      intents := intents[id := intents[id].(attempts := intents[id].attempts[n := attempt])];
      past := past.(sends := past.sends + multiset{id});
      var state, code := SendInSavepoint(id, e);
      clock := later;
      Finish(id, n, state, code, later, false);
      assert intents == T.Sent(before, id, n, e, later).intents;
      return state == ProviderAccepted;
    }

    /** The savepoint: an exception out of the backend restores the captures. */
    method SendInSavepoint(id: Id, e: T.Surroundings) returns (state: State, code: Code)
      requires id in intents
      modifies this`intents, this`past
      ensures var out := T.Send(cfg, old(intents)[id], e);
              intents == old(intents)[id := out.intent] && state == out.state && code == out.code
      ensures past == old(past).(captures := if state == ProviderAccepted && old(intents)[id].capture.None?
                                             then old(past).captures + multiset{id} else old(past).captures)
    {
      var savepoint := intents;
      var row := intents[id].row;
      OneMessage(savepoint, id, row.payload, e.stamp);
      assert savepoint[id := savepoint[id]] == savepoint;
      var sent := SendMessages([T.Outgoing(Some(id), row.payload, true)], e.stamp);
      if e.fault == T.RaisesSuppressed {
        intents := savepoint;
        return Suppressed, BackendSuppressed;
      }
      if e.fault == T.RaisesOther {
        intents := savepoint;
        return AcceptanceUncertain, AcceptanceUnknown;
      }
      if e.fault == T.RaisesNotAccepted || sent != Ok(1) {
        intents := savepoint;
        return if row.attemptCount < cfg.maxAttempts then Queued else Failed, NotAccepted;
      }
      if savepoint[id].capture.None? { past := past.(captures := past.captures + multiset{id}); }
      return ProviderAccepted, CapturedLocal;
    }

    static lemma OneMessage(intents: map<Id, Intent>, id: Id, message: Payload, stamp: Time)
      requires id in intents
      ensures T.CaptureAll(intents, [T.Outgoing(Some(id), message, true)], stamp) ==
              (var kept := T.CaptureMessage(intents[id], message, stamp);
               if kept.None? then None else Some(intents[id := kept.value]))
    {
      var kept := T.CaptureMessage(intents[id], message, stamp);
      if kept.Some? { assert T.CaptureAll(intents[id := kept.value], [], stamp) == Some(intents[id := kept.value]); }
    }

    // -------------------------------------------------------------- recover

    /** One transaction of `recover`. */
    method RecoverOne(id: Id, caps: T.Capabilities, answer: T.Lookup, now: Time) returns (changed: bool)
      requires Inv(View()) && clock <= now
      modifies this
      ensures (View(), changed) == T.Recover(old(View()), id, caps, answer, now)
      ensures Inv(View()) && Kept(old(View()), View()) && past == old(past)
    {
      hide Inv; hide Kept;
      RecoverKeeps(View(), id, caps, answer, now);
      clock := now;
      if id !in intents { return false; }
      var row := intents[id].row;
      var expired := row.state == Queued && row.leaseUntil.Some? && row.leaseUntil.value <= now;
      if !expired && row.state != AcceptanceUncertain { return false; }
      var newest := T.Latest(intents[id]);
      if newest.None? { return false; }
      var n := newest.value;
      var preSend := expired && intents[id].attempts[n].phase == Claimed;
      var outcome := T.Absent;
      if !preSend {
        outcome := if answer == T.Raised then T.Uncertain else answer;
        if outcome == T.Absent && !(caps.authoritativeAbsence && caps.localCapture) { outcome := T.Uncertain; }
      }
      var state, code := AcceptanceUncertain, AcceptanceUnknown;
      if outcome == T.Accepted {
        state, code := ProviderAccepted, if caps.localCapture then CapturedLocal else AcceptedByProvider;
      } else if outcome == T.Absent {
        state := if preSend || row.attemptCount < cfg.maxAttempts then Queued else Failed;
        code := if preSend then ClaimRecovered else LeaseRecovered;
      }
      if state == row.state == AcceptanceUncertain { return false; }
      Finish(id, n, state, code, now, preSend);
      return true;
    }

    /** The next transaction of `recover`, after whatever others did meanwhile. */
    method RecoverNext(id: Id, caps: T.Capabilities, ghost scan: Db) returns (changed: bool, ghost turn: Turn)
      requires Inv(View()) && Inv(scan) && Kept(scan, View()) && id in scan.intents
      modifies this
      ensures Reach(old(View()), View()) && Inv(View()) && Kept(old(View()), View()) && NotMine(old(past), past)
      ensures T.Expired(scan.intents[id], scan.clock) ==> LeaseGone(scan, View(), id)
      ensures turn == Turn(id, turn.before, View(), changed) && Reach(old(View()), turn.before) && IsTurn(turn, caps)
    {
      hide Inv; hide Kept; hide Reach; hide T.Recover;
      ghost var s0 := View();
      Interfere();
      ghost var s1 := View();
      var now := DatabaseNow();
      ghost var s2 := View();
      ClockMoves(s1, now);
      ReachJoin(s0, s1, s2);
      TickKeeps(s1, now);
      KeptClock(scan, s0);
      KeptClock(s0, s1);
      KeptTransitive(s0, s1, s2);
      KeptTransitive(scan, s0, s2);
      var answer: T.Lookup := *;
      changed := RecoverOne(id, caps, answer, now);
      turn := Turn(id, s2, View(), changed);
      TurnIs(turn, caps, answer, now);
      KeptTransitive(s0, s2, View());
      ReachSelf(s2);
      ReachStep(s2, s2, DoRecover(id, caps, answer, now));
      ReachJoin(s0, s2, View());
      if T.Expired(scan.intents[id], scan.clock) { ReclaimedNow(scan, s2, id, caps, answer, now); }
    }

    static lemma KeptClock(s: Db, t: Db)
      requires Kept(s, t)
      ensures s.clock <= t.clock
    {
    }

    /** What a pass of `recover` promises, from the scanned tables to those it leaves. The scanned rows get their
        turns in order; what is counted are exactly the turns that changed their row, so rows that stay uncertain
        do not use up the limit; and the pass stops early only at the limit. When fewer rows change, or an
        uncertain one was reached, every lease that had expired at the scan has been reclaimed. */
    static ghost predicate Recovered(scan: Db, t: Db, turns: seq<Turn>, changed: nat, limit: int, caps: T.Capabilities) {
      && TurnsOf(scan, turns, caps) && Trace(scan, turns, t)
      && changed == |Counted(turns)| && (changed <= limit || turns == [])
      && (limit > 0 && changed < limit ==> |turns| == |T.RecoverIds(scan.intents, scan.clock)|)
      && (limit > 0 && (changed < limit || exists m :: m in Counted(turns) && !WasExpired(scan, m)) ==>
            forall id | WasExpired(scan, id) :: LeaseGone(scan, t, id))
    }

    static predicate WasExpired(scan: Db, id: Id) { id in scan.intents && T.Expired(scan.intents[id], scan.clock) }

    /** `recover`, with other workers between its transactions. */
    method Recover(limit: int, caps: T.Capabilities) returns (changed: nat, ghost scan: Db, ghost turns: seq<Turn>)
      requires Inv(View())
      modifies this
      ensures Reach(old(View()), View()) && Inv(View()) && NotMine(old(past), past)
      ensures old(clock) <= scan.clock && scan == old(View()).(clock := scan.clock)
      ensures Recovered(scan, View(), turns, changed, limit, caps)
    {
      hide Inv; hide Kept; hide Reach; hide NotMine; hide Since; hide Recovered; hide Sorted; hide T.RecoverIds;
      hide InOrder; hide Trace; hide Counted;
      ghost var s0 := View();
      var now := DatabaseNow();
      scan, turns, changed := View(), [], 0;
      Scanning(s0, now);
      if limit <= 0 {
        SinceMeans(s0, scan);
        NothingToRecover(scan, limit, caps);
        return;
      }
      var ids := Sorted(T.RecoverIds(intents, now), T.RecoverRank(intents));
      ExpiredFirst(scan.intents, now, ids);
      changed, turns := RecoverAll(ids, limit, caps, s0, scan);
      SinceMeans(s0, scan);
      AllRecovered(scan, View(), ids, turns, changed, limit, caps);
    }

    static lemma NothingToRecover(scan: Db, limit: int, caps: T.Capabilities)
      requires limit <= 0
      ensures Recovered(scan, scan, [], 0, limit, caps)
    {
      hide Sorted; hide T.RecoverIds;
      NoTurns(scan);
    }

    static lemma AllRecovered(scan: Db, t: Db, ids: seq<Id>, turns: seq<Turn>, changed: nat, limit: int, caps: T.Capabilities)
      requires ids == Sorted(T.RecoverIds(scan.intents, scan.clock), T.RecoverRank(scan.intents))
      requires forall x | 0 <= x < |ids| :: ids[x] in scan.intents
      requires InOrder(turns, ids, caps) && Trace(scan, turns, t)
      requires changed == |Counted(turns)| <= limit && (changed < limit ==> |turns| == |ids|)
      requires forall x | 0 <= x < |turns| && T.Expired(scan.intents[ids[x]], scan.clock) :: LeaseGone(scan, t, ids[x])
      ensures Recovered(scan, t, turns, changed, limit, caps)
    {
      hide Sorted; hide Counted; hide IsTurn; hide Trace; hide LeaseGone; hide T.Expired; hide T.RecoverIds;
      CountedAreTurns(turns, ids);
      ScanDone(scan, t, ids, |turns|, Counted(turns));
    }

    /** The turns are those of the first scanned rows, in the order of the scan. */
    static ghost predicate TurnsOf(scan: Db, turns: seq<Turn>, caps: T.Capabilities) {
      InOrder(turns, Sorted(T.RecoverIds(scan.intents, scan.clock), T.RecoverRank(scan.intents)), caps)
    }

    static ghost predicate InOrder(turns: seq<Turn>, ids: seq<Id>, caps: T.Capabilities) {
      |turns| <= |ids| && forall x | 0 <= x < |turns| :: turns[x].id == ids[x] && IsTurn(turns[x], caps)
    }

    static lemma NoTurns(s: Db)
      ensures Trace(s, [], s) && Counted([]) == {}
    {
    }

    static lemma CountedAreTurns(turns: seq<Turn>, ids: seq<Id>)
      requires |turns| <= |ids| && forall x | 0 <= x < |turns| :: turns[x].id == ids[x]
      ensures forall m | m in Counted(turns) :: m in ids[..|turns|]
    {
      forall m | m in Counted(turns) ensures m in ids[..|turns|] {
        var t :| t in turns && t.changed && t.id == m;
        var x :| 0 <= x < |turns| && turns[x] == t;
        assert ids[..|turns|][x] == m;
      }
    }

    /** The loop of `recover`, stopping at `limit` changed rows. */
    method RecoverAll(ids: seq<Id>, limit: int, caps: T.Capabilities, ghost s0: Db, ghost scan: Db)
      returns (changed: nat, ghost turns: seq<Turn>)
      requires Since(s0, scan) && Inv(scan) && limit > 0
      requires (forall x | 0 <= x < |ids| :: ids[x] in scan.intents) && forall x, y | 0 <= x < y < |ids| :: ids[x] != ids[y]
      modifies this
      ensures Since(s0, scan) && InOrder(turns, ids, caps) && Trace(old(View()), turns, View())
      ensures changed == |Counted(turns)| <= limit && (changed < limit ==> |turns| == |ids|)
      ensures forall x | 0 <= x < |turns| && T.Expired(scan.intents[ids[x]], scan.clock) :: LeaseGone(scan, View(), ids[x])
    {
      hide Inv; hide T.Expired; hide LeaseGone; hide NotMine; hide Since; hide Reach; hide Trace; hide IsTurn; hide Counted;
      changed, turns := 0, [];
      NoTurns(View());
      var i := 0;
      while i < |ids|
        invariant 0 <= i == |turns| <= |ids| && changed == |Counted(turns)| < limit
        invariant Since(s0, scan) && InOrder(turns, ids, caps) && Trace(old(View()), turns, View())
        invariant forall x | 0 <= x < i && T.Expired(scan.intents[ids[x]], scan.clock) :: LeaseGone(scan, View(), ids[x])
      {
        ghost var s1 := View();
        var done; ghost var turn;
        done, turn := RecoverAt(ids, i, caps, s0, scan);
        TraceLonger(old(View()), turns, s1, turn);
        CountedAreTurns(turns, ids);
        i := i + 1;
        assert ids[i - 1] !in Counted(turns);
        turns := turns + [turn];
        if done {
          changed := changed + 1;
          if changed >= limit { return; }
        }
      }
    }

    /** The tables are some stretch of a run after s0, and after the scan. */
    ghost predicate Since(s0: Db, scan: Db)
      reads this
    {
      Inv(View()) && Kept(scan, View()) && Reach(s0, View()) && NotMine(s0.past, past)
    }

    lemma SinceMeans(s0: Db, scan: Db)
      requires Since(s0, scan)
      ensures Inv(View()) && Reach(s0, View()) && NotMine(s0.past, past)
    {
    }

    lemma Scanning(s0: Db, now: Time)
      requires Inv(s0) && s0.clock <= now && View() == s0.(clock := now)
      ensures Since(s0, View()) && Inv(View())
    {
      hide Inv; hide Kept; hide Reach; hide NotMine;
      TickKeeps(s0, now);
      ClockMoves(s0, now);
      KeptItself(View());
      NoneDrawn(past);
    }

    /** The k-th row of the scan; what was reclaimed before stays so. */
    method RecoverAt(ids: seq<Id>, k: nat, caps: T.Capabilities, ghost s0: Db, ghost scan: Db)
      returns (changed: bool, ghost turn: Turn)
      requires Since(s0, scan) && Inv(scan) && k < |ids| && forall x | 0 <= x < |ids| :: ids[x] in scan.intents
      requires forall x | 0 <= x < k && T.Expired(scan.intents[ids[x]], scan.clock) :: LeaseGone(scan, View(), ids[x])
      modifies this
      ensures Since(s0, scan)
      ensures forall x | 0 <= x <= k && T.Expired(scan.intents[ids[x]], scan.clock) :: LeaseGone(scan, View(), ids[x])
      ensures turn == Turn(ids[k], turn.before, View(), changed) && Reach(old(View()), turn.before) && IsTurn(turn, caps)
    {
      hide Inv; hide Kept; hide Reach; hide T.Expired; hide LeaseGone; hide NotMine; hide IsTurn;
      ghost var s1 := View();
      changed, turn := RecoverNext(ids[k], caps, scan);
      ReachJoin(s0, s1, View());
      NoneDrawnJoin(s0.past, s1.past, past);
      KeptTransitive(scan, s1, View());
      AllStayGone(scan, s1, View(), ids, k);
    }

    // -------------------------------------------------------------- housekeeping

    /** One erasing transaction of `housekeeping`. */
    method EraseOne(id: Id, cutoff: Time, now: Time) returns (erased: bool)
      requires Inv(View()) && clock <= now
      modifies this
      ensures (View(), erased) == T.Erase(old(View()), id, cutoff, now)
      ensures Inv(View()) && Kept(old(View()), View())
    {
      hide Inv; hide Kept; hide T.EraseIntent; hide T.ClearedAddress;
      EraseKeeps(View(), id, cutoff, now);
      clock := now;
      ghost var s := View();
      if id !in intents { return false; }
      var row := intents[id].row;
      var p := row.recipient;
      if row.lease.Some? || row.erasedAt.Some? || row.state == AcceptanceUncertain { return false; }
      var ended := row.challenge.Some?
                   && (p !in addresses || row.challenge != addresses[p].challenge || addresses[p].digest.None?
                       || addresses[p].expiresAt.None? || now >= addresses[p].expiresAt.value);
      if !ended && !(Terminal(row.state) && row.terminalAt.Some? && row.terminalAt.value <= cutoff) { return false; }
      EraseRow(id, cutoff, now);
      ClearAddress(p, row.challenge, now);
      assert intents == T.Put(s, id, T.EraseIntent(s.intents[id], cutoff, now)).intents;
      return true;
    }

    /** What erasing does to the row, its capture and its attempts. */
    method EraseRow(id: Id, cutoff: Time, now: Time)
      requires id in intents
      modifies this`intents
      ensures intents == old(intents)[id := T.EraseIntent(old(intents)[id], cutoff, now)]
    {
      var row := intents[id].row;
      if row.state in {Requested, Queued} {
        row := row.(state := Suppressed);
        row := row.(lastCode := ChallengeEnded);
        row := row.(terminalAt := Some(now));
      }
      row := row.(payload := ERASED);
      row := row.(erasedAt := Some(now));
      var captured := intents[id].capture;
      var attempts := intents[id].attempts;
      if Terminal(row.state) && row.terminalAt.Some? && row.terminalAt.value <= cutoff {
        captured, attempts := None, map[];
      } else if captured.Some? {
        captured := Some(captured.value.(content := ERASED));
      }
      intents := intents[id := Intent(row, attempts, captured)];
    }

    /** An expired challenge of the row is taken out of the address record. */
    method ClearAddress(p: Id, challenge: Option<Id>, now: Time)
      modifies this`addresses
      ensures addresses == if p in old(addresses) && old(addresses)[p].challenge == challenge
                              && old(addresses)[p].expiresAt.Some? && old(addresses)[p].expiresAt.value <= now
                           then old(addresses)[p := T.ClearedAddress(old(addresses)[p])] else old(addresses)
    {
      if p in addresses && addresses[p].challenge == challenge
         && addresses[p].expiresAt.Some? && now >= addresses[p].expiresAt.value {
        addresses := addresses[p := addresses[p].(challenge := None, digest := None, pending := "", expiresAt := None)];
      }
    }

    /** `housekeeping`, with other workers between its statements. The oldest candidates of the scan get one erasing
        turn each and are redacted afterwards, finished rows and rows with an ended challenge alike; what is
        counted are exactly the turns that erased; and the closing deletions follow. */
    method Housekeeping(limit: nat)
      returns (erased: nat, ghost scan: Db, ghost cutoff: Time, ghost turns: seq<Turn>, ghost sweep: Sweep)
      requires Inv(View())
      modifies this
      ensures Reach(old(View()), View()) && Inv(View()) && erased <= limit
      ensures scan == old(View()).(clock := scan.clock) && cutoff + cfg.retentionDays * DAY_SECONDS == scan.clock
      ensures Trace(scan, turns, sweep.start) && Swept(sweep, limit, cutoff, View())
      ensures ErasedInOrder(turns, Oldest(scan, cutoff, limit), cutoff) && erased == |Counted(turns)|
      ensures forall id | id in Oldest(scan, cutoff, limit) :: Redacted(View(), id) && Unreadable(View().intents[id])
      ensures |Candidates(scan, cutoff)| <= limit ==> forall id | id in Candidates(scan, cutoff) :: Redacted(View(), id)
    {
      hide Inv; hide Kept; hide Reach; hide Redacted; hide Trace; hide Swept; hide Counted; hide Candidates; hide Oldest;
      hide ErasedInOrder; hide Unreadable;
      ghost var s0 := View();
      var ids, horizon;
      ids, horizon, scan := ScanErasable(limit);
      cutoff := horizon;
      OldestAre(scan, cutoff, limit);
      ReachSelf(scan);
      erased, turns := EraseAll(ids, horizon, scan);
      ghost var s2 := View();
      ReachJoin(s0, scan, s2);
      sweep := DeleteOld(limit, horizon);
      ReachJoin(s0, s2, View());
      AllStayRedacted(s2, View(), set id | id in ids);
      RedactedIsUnreadable(View());
    }

    /** The bounded scan of `housekeeping`. */
    method ScanErasable(limit: nat) returns (ids: seq<Id>, horizon: Time, ghost scan: Db)
      requires Inv(View())
      modifies this`clock
      ensures scan == View() == old(View()).(clock := clock) && Inv(scan) && Reach(old(View()), scan)
      ensures horizon + cfg.retentionDays * DAY_SECONDS == clock && ids == Oldest(scan, horizon, limit)
    {
      hide Inv; hide Kept; hide Reach; hide Sorted; hide Candidates;
      ghost var s0 := View();
      var now := DatabaseNow();
      TickKeeps(s0, now);
      ClockMoves(s0, now);
      scan := View();
      horizon := now - cfg.retentionDays * DAY_SECONDS;
      var candidates := set id | id in intents && Scanned(intents[id], horizon, now);
      CandidatesAre(scan, horizon, candidates);
      ids := Sorted(candidates, T.AgeRank(intents));
      if |ids| > limit { ids := ids[..limit]; }
    }

    /** Nothing of the message is left, in the row or in its capture. */
    static predicate Unreadable(i: Intent) {
      i.row.payload == ERASED && (i.capture.Some? ==> i.capture.value.content == ERASED)
    }

    static lemma RedactedIsUnreadable(s: Db)
      requires Inv(s)
      ensures forall id | Redacted(s, id) :: Unreadable(s.intents[id])
    {
      forall id | Redacted(s, id) ensures Unreadable(s.intents[id]) { IntentOf(s, id); }
    }

    /** The first `limit` candidates by age. */
    static function Oldest(scan: Db, cutoff: Time, limit: nat): seq<Id> {
      var ids := Sorted(Candidates(scan, cutoff), T.AgeRank(scan.intents));
      if |ids| > limit then ids[..limit] else ids
    }

    /** No candidate that the limit leaves for later is older than one that is taken now. */
    static lemma OldestFirst(scan: Db, cutoff: Time, limit: nat, id: Id, later: Id)
      requires id in Oldest(scan, cutoff, limit) && later in Candidates(scan, cutoff) && later !in Oldest(scan, cutoff, limit)
      ensures id in scan.intents && later in scan.intents
      ensures scan.intents[id].row.createdAt <= scan.intents[later].row.createdAt && |Oldest(scan, cutoff, limit)| == limit
    {
      var all := Sorted(Candidates(scan, cutoff), T.AgeRank(scan.intents));
      var x :| 0 <= x < |Oldest(scan, cutoff, limit)| && Oldest(scan, cutoff, limit)[x] == id;
      var y :| 0 <= y < |all| && all[y] == later;
      assert all[x] == id && x < y;
      assert id in all;
    }

    static ghost predicate ErasedInOrder(turns: seq<Turn>, ids: seq<Id>, cutoff: Time) {
      |turns| == |ids| && forall x | 0 <= x < |turns| :: turns[x].id == ids[x] && IsErasure(turns[x], cutoff)
    }

    static lemma CandidatesAre(scan: Db, cutoff: Time, ids: set<Id>)
      requires ids == set id | id in scan.intents && T.Erasable(scan, scan.intents[id], cutoff, scan.clock)
      ensures ids == Candidates(scan, cutoff)
    {
    }

    static lemma OldestAre(scan: Db, cutoff: Time, limit: nat)
      ensures var ids := Oldest(scan, cutoff, limit);
              && |ids| <= limit && (forall x | 0 <= x < |ids| :: ids[x] in Candidates(scan, cutoff))
              && (forall x, y | 0 <= x < y < |ids| :: ids[x] != ids[y])
              && (|Candidates(scan, cutoff)| <= limit ==> forall id | id in Candidates(scan, cutoff) :: id in ids)
    {
      hide Candidates;
      var all := Sorted(Candidates(scan, cutoff), T.AgeRank(scan.intents));
      assert forall x | 0 <= x < |all| :: all[x] in all;
    }

    /** The erasing loop of `housekeeping`. */
    method EraseAll(ids: seq<Id>, cutoff: Time, ghost scan: Db) returns (erased: nat, ghost turns: seq<Turn>)
      requires Inv(View()) && Inv(scan) && Reach(scan, View()) && cutoff + cfg.retentionDays * DAY_SECONDS <= scan.clock
      requires forall x | 0 <= x < |ids| :: ids[x] in Candidates(scan, cutoff)
      requires forall x, y | 0 <= x < y < |ids| :: ids[x] != ids[y]
      modifies this
      ensures Reach(scan, View()) && Inv(View()) && cutoff + cfg.retentionDays * DAY_SECONDS <= clock
      ensures ErasedInOrder(turns, ids, cutoff) && Trace(old(View()), turns, View()) && erased == |Counted(turns)| <= |ids|
      ensures forall id | id in ids :: Redacted(View(), id)
    {
      hide Inv; hide Kept; hide Reach; hide Redacted; hide Trace; hide Counted; hide IsErasure; hide Candidates;
      ScanClock(scan, View());
      erased, turns := 0, [];
      NoTurns(View());
      var k := 0;
      while k < |ids|
        invariant 0 <= k == |turns| <= |ids| && erased == |Counted(turns)| <= k && scan.clock <= clock
        invariant Inv(View()) && Reach(scan, View())
        invariant ErasedInOrder(turns, ids[..k], cutoff) && Trace(old(View()), turns, View())
        invariant forall id | id in ids[..k] :: Redacted(View(), id)
      {
        ghost var before := View();
        var changed; ghost var turn;
        changed, turn := EraseNext(ids[k], cutoff, scan);
        ReachJoin(scan, before, View());
        ScanClock(scan, View());
        AllStayRedacted(before, View(), set id | id in ids[..k]);
        TraceLonger(old(View()), turns, before, turn);
        CountedAreTurns(turns, ids);
        assert ids[k] !in Counted(turns);
        assert ids[..k + 1] == ids[..k] + [ids[k]];
        turns := turns + [turn];
        if changed { erased := erased + 1; }
        k := k + 1;
      }
      assert ids[..k] == ids;
    }

    static lemma ScanClock(scan: Db, s: Db)
      requires Inv(scan) && Reach(scan, s)
      ensures scan.clock <= s.clock
    {
      hide Inv; hide Reach;
      ReachKeeps(scan, s);
      KeptClock(scan, s);
    }

    function Scanned(i: Intent, cutoff: Time, now: Time): (b: bool)
      reads this
      ensures b == T.Erasable(View(), i, cutoff, now)
    {
      i.row.erasedAt.None? && i.row.lease.None? && i.row.state != AcceptanceUncertain
      && ((Terminal(i.row.state) && i.row.terminalAt.Some? && i.row.terminalAt.value <= cutoff)
          || (i.row.challenge.Some?
              && !(i.row.recipient in addresses && addresses[i.row.recipient].challenge == i.row.challenge
                   && addresses[i.row.recipient].expiresAt.Some? && now < addresses[i.row.recipient].expiresAt.value
                   && addresses[i.row.recipient].digest.Some?)))
    }

    /** The erasing transaction of one candidate, after whatever others did. */
    method EraseNext(id: Id, cutoff: Time, ghost scan: Db) returns (erased: bool, ghost turn: Turn)
      requires Inv(View()) && Inv(scan) && Reach(scan, View()) && id in Candidates(scan, cutoff)
      requires cutoff + cfg.retentionDays * DAY_SECONDS <= clock
      modifies this
      ensures Reach(old(View()), View()) && Inv(View()) && Kept(old(View()), View())
      ensures turn == Turn(id, turn.before, View(), erased) && Reach(old(View()), turn.before) && IsErasure(turn, cutoff)
      ensures Redacted(View(), id)
    {
      hide Inv; hide Kept; hide Reach; hide T.Erase; hide Redacted; hide Candidates;
      ghost var s0 := View();
      ghost var s2 := Passing();
      ReachJoin(scan, s0, s2);
      KeptClock(s0, s2);
      var now := clock;
      erased := EraseOne(id, cutoff, now);
      turn := Turn(id, s2, View(), erased);
      SameClock(s2, id, cutoff);
      KeptTransitive(s0, s2, View());
      ReachSelf(s2);
      ReachStep(s2, s2, DoErase(id, cutoff, now));
      ReachJoin(s0, s2, View());
      CandidateIsRedacted(scan, s2, id, cutoff);
    }

    static lemma SameClock(s: Db, id: Id, cutoff: Time)
      ensures T.Erase(s, id, cutoff, s.clock).0.clock == s.clock
    {
    }

    /** Every candidate of the scan, finished and aged or idle with an ended challenge, is redacted by its turn. */
    static lemma CandidateIsRedacted(scan: Db, s: Db, id: Id, cutoff: Time)
      requires Inv(scan) && Reach(scan, s) && id in Candidates(scan, cutoff)
      ensures Redacted(T.Erase(s, id, cutoff, s.clock).0, id)
    {
      hide Inv; hide Reach; hide T.Erase; hide Redacted; hide T.Aged; hide T.ChallengeDead; hide Kept;
      ReachKeeps(scan, s);
      if T.Aged(scan.intents[id], cutoff) {
        RedactedNow(scan, s, id, cutoff, s.clock);
      } else {
        EndedIsRedacted(scan, s, id, cutoff);
      }
    }

    /** Others act, and some time passes. */
    method Passing() returns (ghost s: Db)
      requires Inv(View())
      modifies this
      ensures s == View() && Reach(old(View()), s) && Inv(s) && Kept(old(View()), s)
    {
      hide Inv; hide Kept; hide Reach;
      ghost var s0 := View();
      Interfere();
      ghost var s1 := View();
      var now := DatabaseNow();
      s := View();
      ClockMoves(s1, now);
      ReachJoin(s0, s1, s);
      TickKeeps(s1, now);
      KeptTransitive(s0, s1, s);
    }

    /** The closing bulk deletions: old attempts and old captures, as many as the limit allows, and old capacity rows. */
    method DeleteOld(limit: nat, cutoff: Time) returns (ghost sweep: Sweep)
      requires Inv(View()) && cutoff + cfg.retentionDays * DAY_SECONDS <= clock
      modifies this
      ensures Reach(old(View()), View()) && Inv(View()) && Kept(old(View()), View())
      ensures sweep.start == old(View()) && Swept(sweep, limit, cutoff, View())
    {
      hide Inv; hide Kept; hide Reach; hide Chosen; hide OldAttempts; hide OldCaptures;
      ghost var s0 := View();
      ghost var first, attempts := DeleteAttempts(limit, cutoff);
      ghost var s1 := View();
      KeptClock(s0, s1);
      ghost var second, captures := DeleteCaptures(limit, cutoff);
      ghost var s2 := View();
      KeptClock(s1, s2);
      ReachJoin(s0, s1, s2);
      KeptTransitive(s0, s1, s2);
      ghost var third := DeleteBuckets(cutoff);
      ReachJoin(s0, s2, View());
      KeptTransitive(s0, s2, View());
      sweep := Sweep(s0, first, attempts, second, captures, third);
    }

    /** At most `limit` of a selection; which ones is not said. */
    static method PickSome<X(==)>(all: set<X>, limit: nat) returns (chosen: set<X>)
      ensures Chosen(chosen, all, limit)
    {
      var rest := all;
      chosen := {};
      while |chosen| < limit && rest != {}
        invariant chosen <= all && rest == all - chosen && |chosen| <= limit
        decreases |rest|
      {
        var x :| x in rest;
        chosen, rest := chosen + {x}, rest - {x};
      }
      assert rest == {} ==> chosen == all;
      assert |all| == |chosen| + |all - chosen|;
    }

    method DeleteAttempts(limit: nat, cutoff: Time) returns (ghost s: Db, ghost chosen: set<(Id, nat)>)
      requires Inv(View()) && cutoff + cfg.retentionDays * DAY_SECONDS <= clock
      modifies this
      ensures Reach(old(View()), View()) && Inv(View()) && Kept(old(View()), View())
      ensures Reach(old(View()), s) && Chosen(chosen, OldAttempts(s.intents, cutoff), limit)
      ensures View() == T.DropAttempts(s, chosen, cutoff)
    {
      hide Inv; hide Kept; hide Reach; hide Chosen; hide OldAttempts; hide T.OldAttempt;
      ghost var s0 := View();
      s := Passing();
      KeptClock(s0, s);
      var doomed := PickSome(OldAttempts(intents, cutoff), limit);
      chosen := doomed;
      intents := map id | id in intents ::
        intents[id].(attempts := map n | n in intents[id].attempts && !((id, n) in doomed && T.OldAttempt(intents[id], n, cutoff))
                                 :: intents[id].attempts[n]);
      assert intents == T.DropAttempts(s, chosen, cutoff).intents;
      Follow(s0, s, View(), DoDropAttempts(chosen, cutoff));
    }

    method DeleteCaptures(limit: nat, cutoff: Time) returns (ghost s: Db, ghost chosen: set<Id>)
      requires Inv(View()) && cutoff + cfg.retentionDays * DAY_SECONDS <= clock
      modifies this
      ensures Reach(old(View()), View()) && Inv(View()) && Kept(old(View()), View())
      ensures Reach(old(View()), s) && Chosen(chosen, OldCaptures(s.intents, cutoff), limit)
      ensures View() == T.DropCaptures(s, chosen, cutoff)
    {
      hide Inv; hide Kept; hide Reach; hide Chosen; hide OldCaptures; hide T.OldCapture;
      ghost var s0 := View();
      s := Passing();
      KeptClock(s0, s);
      var doomed := PickSome(OldCaptures(intents, cutoff), limit);
      chosen := doomed;
      intents := map id | id in intents ::
        if id in doomed && T.OldCapture(intents[id], cutoff) then intents[id].(capture := None) else intents[id];
      assert intents == T.DropCaptures(s, chosen, cutoff).intents;
      Follow(s0, s, View(), DoDropCaptures(chosen, cutoff));
    }

    method DeleteBuckets(cutoff: Time) returns (ghost s: Db)
      requires Inv(View()) && cutoff + cfg.retentionDays * DAY_SECONDS <= clock
      modifies this
      ensures Reach(old(View()), View()) && Inv(View()) && Kept(old(View()), View())
      ensures Reach(old(View()), s) && View() == T.DropBuckets(s, cutoff)
    {
      hide Inv; hide Kept; hide Reach;
      ghost var s0 := View();
      s := Passing();
      KeptClock(s0, s);
      buckets := map d | d in buckets && Day(cutoff) <= d :: buckets[d];
      assert buckets == T.DropBuckets(s, cutoff).buckets;
      Follow(s0, s, View(), DoDropBuckets(cutoff));
    }

    // -------------------------------------------------------------- service

    /** `_enqueue`. */
    method Enqueue(id: Id, row: Row) returns (reply: T.Reply)
      modifies this`intents
      ensures (View(), reply) == T.Enqueue(old(View()), id, row)
    {
      if !(1 <= |row.key| <= 160) { return T.Declined; }
      var same := set j | j in intents && intents[j].row.key == row.key;
      assert same == T.WithKey(View(), row.key);
      if same == {} {
        intents := intents[id := Intent(row, map[], None)];
        return T.Stored(id);
      }
      var stored := Highest(same);
      if intents[stored].row.fingerprint != row.fingerprint { return T.Declined; }
      return T.Stored(stored);
    }

    /** `_suppress_verification`. */
    method SuppressVerification(identity: Id, now: Time)
      modifies this`intents
      ensures View() == T.SuppressVerification(old(View()), identity, now)
    {
      ghost var s := View();
      intents := map id | id in intents ::
        var row := intents[id].row;
        if row.recipient == identity && row.challenge.Some? && row.state in {Requested, Queued} && row.lease.None?
        then intents[id].(row := row.(state := Suppressed, lastCode := ChallengeEnded, terminalAt := Some(now)))
        else intents[id];
      assert intents == T.SuppressVerification(s, identity, now).intents;
    }

    method RequestVerification(q: T.VerificationRequest) returns (reply: T.Reply)
      requires Inv(View()) && q.challenge !in past.slots && q.intent !in intents
      modifies this
      ensures (View(), reply) == T.RequestVerification(old(View()), q, clock)
      ensures old(clock) <= clock && Inv(View()) && Kept(old(View()), View())
    {
      hide Inv; hide Kept; hide T.Issue; hide T.Enqueue; hide T.VerificationRow;
      ghost var s0 := View();
      var now := DatabaseNow();
      RequestVerificationKeeps(s0, q, now);
      if !q.admitted { return T.Declined; }
      var stored := set j | j in intents && intents[j].row.key == q.key;
      assert stored == T.WithKey(View(), q.key);
      var fingerprint := VerificationPrint(q.identity, q.payload.to, q.key);
      if stored != {} {
        var existing := Highest(stored);
        if intents[existing].row.fingerprint != fingerprint { return T.Declined; }
        return T.Stored(existing);
      }
      var savedIntents, savedAddresses := intents, addresses;
      ghost var savedPast := past;
      if q.identity !in addresses { addresses := addresses[q.identity := NEW_ADDRESS]; }
      ghost var s1 := View();
      IssueSame(s0.(clock := now), s1, q, now);
      var record := addresses[q.identity];
      if (record.lastRequestedAt.Some? && now < record.lastRequestedAt.value + cfg.resendSeconds)
         || (record.requestDay == Some(Day(now)) && record.requestsToday >= cfg.verificationsPerDay) {
        addresses := savedAddresses;  // refused: the transaction is rolled back
        return T.Declined;
      }
      reply := IssueAndEnqueue(q, now);
      if reply == T.Declined {
        intents, addresses := savedIntents, savedAddresses;
        past := savedPast;
      }
    }

    /** The writing part of `request_verification`; a refusal in it is rolled back by the transaction. */
    method IssueAndEnqueue(q: T.VerificationRequest, now: Time) returns (reply: T.Reply)
      requires q.identity in addresses
      modifies this
      ensures buckets == old(buckets) && clock == old(clock)
      ensures reply != T.Declined ==>
                q.templateOk && (View(), reply) == T.Enqueue(T.Issue(old(View()), q, now), q.intent, T.VerificationRow(q, now))
      ensures reply == T.Declined && q.templateOk ==>
                T.Enqueue(T.Issue(old(View()), q, now), q.intent, T.VerificationRow(q, now)).1 == T.Declined
    {
      hide T.Issue; hide T.Enqueue;
      IssueChallenge(q, now);
      reply := T.Declined;
      if q.templateOk {
        var fingerprint := VerificationPrint(q.identity, q.payload.to, q.key);
        reply := Enqueue(q.intent, T.NewRow(q.key, fingerprint, q.identity, Essential, Some(q.challenge), q.payload,
                                            q.created, now));
      }
    }

    /** An empty record, created on the way, makes no difference to what is issued. */
    static lemma IssueSame(s: Db, t: Db, q: T.VerificationRequest, now: Time)
      requires t == s || (q.identity !in s.addresses && t == s.(addresses := s.addresses[q.identity := NEW_ADDRESS]))
      ensures T.Issue(t, q, now) == T.Issue(s, q, now)
    {
      assert T.Issue(t, q, now).addresses == T.Issue(s, q, now).addresses;
    }

    method IssueChallenge(q: T.VerificationRequest, now: Time)
      requires q.identity in addresses
      modifies this
      ensures View() == T.Issue(old(View()), q, now)
      ensures buckets == old(buckets) && clock == old(clock)
    {
      hide T.SuppressVerification;
      ghost var s := View();
      SuppressVerification(q.identity, now);
      var record := addresses[q.identity];
      record := record.(pending := q.payload.to);
      record := record.(digest := Some(TokenDigest(q.token)));
      record := record.(challenge := Some(q.challenge));
      record := record.(expiresAt := Some(now + cfg.challengeSeconds));
      record := record.(requestsToday := if record.requestDay == Some(Day(now)) then record.requestsToday + 1 else 1);
      record := record.(requestDay := Some(Day(now)));
      record := record.(lastRequestedAt := Some(now));
      addresses := addresses[q.identity := record];
      past := past.(issues := past.issues[q.identity := s.Issues(q.identity) + [now]],
                    slots := past.slots[q.challenge := ChallengeOf(q.identity)]);
    }

    method VerifyAddress(identity: Id, active: bool, challenge: Id, token: string) returns (verified: bool)
      requires Inv(View())
      modifies this
      ensures (View(), verified) == T.VerifyAddress(old(View()), identity, active, challenge, token, clock)
      ensures old(clock) <= clock && Inv(View()) && Kept(old(View()), View())
    {
      hide Inv; hide Kept; hide T.SuppressVerification;
      ghost var s0 := View();
      var now := DatabaseNow();
      VerifyAddressKeeps(s0, identity, active, challenge, token, now);
      if !active || identity !in addresses { return false; }
      var record := addresses[identity];
      if record.digest.None? || record.challenge != Some(challenge) || record.expiresAt.None?
         || now >= record.expiresAt.value || |token| > 128 || record.digest.value != TokenDigest(token) {
        return false;
      }
      SuppressVerification(identity, now);
      record := record.(verified := record.pending);
      record := record.(verifiedAt := Some(now));
      record := record.(pending := "");
      record := record.(digest := None);
      record := record.(challenge := None);
      record := record.(expiresAt := None);
      addresses := addresses[identity := record];
      past := past.(verified := past.verified + multiset{challenge});
      return true;
    }

    method RequestMessage(q: T.NoticeRequest) returns (reply: T.Reply)
      requires Inv(View()) && q.intent !in intents
      modifies this
      ensures (View(), reply) == T.RequestMessage(old(View()), q, clock)
      ensures old(clock) <= clock && Inv(View()) && Kept(old(View()), View())
    {
      hide Inv; hide Kept; hide T.Enqueue;
      ghost var s0 := View();
      var now := DatabaseNow();
      RequestMessageKeeps(s0, q, now);
      if !q.approved { return T.Declined; }
      if q.recipient !in addresses || addresses[q.recipient].verified == "" { return T.Declined; }
      var payload := Payload(addresses[q.recipient].verified, q.sender, q.subject, q.body);
      reply := Enqueue(q.intent, T.NewRow(q.key, NoticePrint(q.recipient, q.category, payload, q.act), q.recipient,
                                          q.category, None, payload, q.created, now));
    }
  }
}
