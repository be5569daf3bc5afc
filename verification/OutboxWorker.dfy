/** One pass of a worker over the shared tables, with any number of other workers and requesters about. */
module OutboxWorker {
  import opened Prelude
  import opened Ordering
  import opened OutboxModel
  import T = OutboxTransactions
  import opened OutboxInvariant
  import opened OutboxRuns
  import opened OutboxTheorems
  import opened OutboxStore

  /** The worker's own UUIDs from the k-th on are still to be drawn, and are all different. */
  ghost predicate Unspent(store: Store, k: nat)
    reads store
  {
    && (forall a: nat | k <= a :: store.draws(a) !in store.past.slots)
    && (forall a: nat, b: nat | a < b :: store.draws(a) != store.draws(b))
  }

  /** Nobody holds the lease, or it has run out. */
  ghost predicate LetGo(s: Db, lease: Id) { forall id | id in s.intents :: !T.HoldsLease(s.intents[id], lease, s.clock) }

  /** The leases of the first k rows of a pass were drawn and are let go. */
  ghost predicate AllLetGo(draws: nat -> Id, s: Db, k: nat) {
    forall a: nat | a < k :: draws(a) in s.past.slots && LetGo(s, draws(a))
  }

  lemma StaysLetGo(s: Db, t: Db, lease: Id)
    requires Inv(s) && Kept(s, t) && lease in s.past.slots && LetGo(s, lease)
    ensures lease in t.past.slots && LetGo(t, lease)
  {
    hide IntentsOk; hide KeysOk; hide QuotaOk; hide AddressesOk;
    forall id | id in t.intents ensures !T.HoldsLease(t.intents[id], lease, t.clock) {
      if t.intents[id].row.lease == Some(lease) {
        IntentOf(s, id);
      }
    }
  }

  lemma AllStayLetGo(store: Store, s: Db, t: Db, k: nat)
    requires Inv(s) && Reach(s, t) && AllLetGo(store.draws, s, k)
    ensures AllLetGo(store.draws, t, k)
  {
    hide Inv; hide Reach; hide Kept; hide LetGo;
    ReachKeeps(s, t);
    forall a: nat | a < k ensures store.draws(a) in t.past.slots && LetGo(t, store.draws(a)) {
      StaysLetGo(s, t, store.draws(a));
    }
  }

  /** After its delivery a lease is let go, whether it was used, refused or found gone. */
  lemma DeliveryLetsGo(s: Db, id: Id, lease: Id, now: Time, later: Time, e: T.Surroundings)
    requires Inv(s) && s.clock <= now <= later && id in s.intents
    requires lease in s.past.slots && s.past.slots[lease].LeaseOf? && s.past.slots[lease].intent == id
    ensures var t := T.Deliver(s, id, lease, now, later, e).0; lease in t.past.slots && LetGo(t, lease)
  {
    hide Inv; hide IntentOk; hide T.Allowed; hide T.Send; hide Highest;
    var t := T.Deliver(s, id, lease, now, later, e).0;
    IntentOf(s, id);
    if s.intents[id].row.lease == Some(lease) {
      CarrierFound(s.cfg, id, s.intents[id], s.past);
      CarrierIsNewest(s.cfg, id, s.intents[id], s.past);
    }
    forall j | j in t.intents ensures !T.HoldsLease(t.intents[j], lease, t.clock) {
      if j != id {
        assert t.intents[j] == s.intents[j];
        IntentOf(s, j);
        if s.intents[j].row.lease.Some? { SlotOf(s.cfg, j, s.intents[j], s.past); }
      }
    }
  }

  /** A held lease was drawn for its holder. */
  lemma SlotOf(cfg: Settings, id: Id, i: Intent, past: History)
    requires IntentOk(cfg, id, i, past) && i.row.lease.Some?
    ensures i.row.lease.value in past.slots && past.slots[i.row.lease.value] == LeaseOf(id, i.row.attemptCount)
  {
    CarrierIsNewest(cfg, id, i, past);
  }

  /** The clock as a transaction that starts now will read it; a caller knows only that it does not run backwards. */
  method Clock(store: Store) returns (readings: nat -> Time)
    ensures Monotone(readings, store.clock)
  {
    var now := store.clock;
    readings := (k: nat) => now;
  }

  /** One call of `recover`: the tables it scanned and left, its transactions and what it returned. */
  datatype Recovery = Recovery(scan: Db, after: Db, turns: seq<Turn>, changed: nat)

  ghost predicate IsRecovery(r: Recovery, limit: int, caps: T.Capabilities) {
    Store.Recovered(r.scan, r.after, r.turns, r.changed, limit, caps)
  }

  /** How a pass ended: at its limit, finding nothing to claim, or on a reserve above the capacity, which raises. */
  datatype Ending = AtLimit | Nothing | BadReserve

  /** `run_worker`. All it does is a stretch of a run; it recovers first; then it claims exactly `attempted` rows, at
      most `limit`, each under its next UUID (every later one is still to be drawn), and leaves none of them leased; and
      it stops short of the limit only on a claim that honestly found nothing, in the state it leaves behind, or on a
      misconfiguration. */
  method RunWorker(store: Store, limit: int, caps: T.Capabilities)
    returns (attempted: nat, ending: Ending, ghost recovery: Recovery)
    requires Inv(store.View()) && Unspent(store, 0)
    modifies store
    ensures Reach(old(store.View()), store.View()) && Inv(store.View())
    ensures IsRecovery(recovery, limit, caps) && Reach(old(store.View()), recovery.scan) && Reach(recovery.after, store.View())
    ensures attempted == 0 || attempted <= limit
    ensures AllLetGo(store.draws, store.View(), attempted) && Unspent(store, attempted)
    ensures ending == AtLimit ==> attempted == if limit <= 0 then 0 else limit
    ensures ending == Nothing ==> HonestNothing(store.View())
    ensures ending == BadReserve ==> store.cfg.reserve > store.cfg.capacity
  {
    hide Inv; hide Reach; hide AllLetGo; hide Unspent; hide IsRecovery;
    ghost var s0 := store.View();
    recovery := RecoverFirst(store, limit, caps);
    ghost var s1 := store.View();
    attempted, ending := ClaimAndDeliver(store, limit);
    ReachJoin(s0, s1, store.View());
  }

  /** The claims of a pass and their deliveries. */
  method ClaimAndDeliver(store: Store, limit: int) returns (attempted: nat, ending: Ending)
    requires Inv(store.View()) && Unspent(store, 0)
    modifies store
    ensures Reach(old(store.View()), store.View()) && Inv(store.View())
    ensures attempted == 0 || attempted <= limit
    ensures AllLetGo(store.draws, store.View(), attempted) && Unspent(store, attempted)
    ensures ending == AtLimit ==> attempted == if limit <= 0 then 0 else limit
    ensures ending == Nothing ==> HonestNothing(store.View())
    ensures ending == BadReserve ==> store.cfg.reserve > store.cfg.capacity
  {
    hide Inv; hide Reach; hide Kept; hide HonestNothing; hide AllLetGo; hide Unspent;
    ghost var s0 := store.View();
    ReachSelf(s0);
    attempted := 0;
    NoneYet(store);
    while attempted < limit
      invariant attempted == 0 || attempted <= limit
      invariant Inv(store.View()) && Reach(s0, store.View()) && Unspent(store, attempted)
      invariant AllLetGo(store.draws, store.View(), attempted)
    {
      ghost var s1 := store.View();
      var work := ClaimNext(store, attempted);
      ReachJoin(s0, s1, store.View());
      AllStayLetGo(store, s1, store.View(), attempted);
      if work == T.NoWork { return attempted, Nothing; }
      if work == T.Misconfigured { return attempted, BadReserve; }
      ghost var s2 := store.View();
      DeliverNext(store, work.intent, work.lease, attempted + 1);
      ReachJoin(s0, s2, store.View());
      AllStayLetGo(store, s2, store.View(), attempted);
      OneMore(store, attempted);
      attempted := attempted + 1;
    }
    return attempted, AtLimit;
  }

  method RecoverFirst(store: Store, limit: int, caps: T.Capabilities) returns (ghost recovery: Recovery)
    requires Inv(store.View()) && Unspent(store, 0)
    modifies store
    ensures Reach(old(store.View()), store.View()) && Inv(store.View()) && Unspent(store, 0)
    ensures IsRecovery(recovery, limit, caps) && Reach(old(store.View()), recovery.scan) && recovery.after == store.View()
  {
    hide Inv; hide Reach; hide Kept; hide Store.Recovered;
    ghost var s0 := store.View();
    var changed; ghost var scan; ghost var turns;
    changed, scan, turns := store.Recover(limit, caps);
    recovery := Recovery(scan, store.View(), turns, changed);
    ClockMoves(s0, scan.clock);
  }

  lemma NoneYet(store: Store)
    ensures AllLetGo(store.draws, store.View(), 0)
  {
  }

  lemma OneMore(store: Store, k: nat)
    requires AllLetGo(store.draws, store.View(), k) && store.draws(k) in store.past.slots && LetGo(store.View(), store.draws(k))
    ensures AllLetGo(store.draws, store.View(), k + 1)
  {
    hide LetGo;
  }

  /** The claim of a pass, after whatever others did. What it hands over is leased to this worker. */
  method ClaimNext(store: Store, k: nat) returns (work: T.ClaimResult)
    requires Inv(store.View()) && Unspent(store, k)
    modifies store
    ensures Reach(old(store.View()), store.View()) && Inv(store.View())
    ensures Unspent(store, if work.Work? then k + 1 else k)
    ensures work == T.NoWork ==> HonestNothing(store.View())
    ensures work == T.Misconfigured ==> store.cfg.reserve > store.cfg.capacity
    ensures work.Work? ==> work.lease == store.draws(k) && work.intent in store.intents
                           && store.intents[work.intent].row.lease == Some(work.lease)
  {
    hide Inv; hide Reach; hide Kept; hide T.Claim; hide HonestNothing;
    ghost var s0 := store.View();
    store.Interfere();
    ghost var s1 := store.View();
    var readings := Clock(store);
    var lease := store.draws(k);
    ClaimIsHonest(s1, readings, lease);
    ClaimDraws(s1, readings, lease);
    work := store.Claim(readings, lease);
    ReachSelf(s1);
    ReachStep(s1, s1, DoClaim(readings, lease));
    ReachJoin(s0, s1, store.View());
  }

  /** A claim draws its one lease and nothing else, and none when it finds no work. */
  lemma ClaimDraws(s: Db, readings: nat -> Time, lease: Id)
    requires Inv(s) && lease !in s.past.slots && Monotone(readings, s.clock)
    ensures var (t, r) := T.Claim(s, readings, lease);
            t.past.slots.Keys <= s.past.slots.Keys + if r.Work? then {lease} else {}
  {
    hide Inv;
    DrawsFrom(s, readings, 0, lease);
  }

  lemma {:induction false} DrawsFrom(s: Db, readings: nat -> Time, k: nat, lease: Id)
    ensures var (t, r) := T.ClaimFrom(s, readings, k, lease);
            t.past.slots.Keys <= s.past.slots.Keys + if r.Work? then {lease} else {}
    decreases |T.OpenIds(s)|
  {
    hide T.ClaimTurn; hide T.ClaimFrom; hide T.OpenIds;
    T.ClaimTurns(s, readings, k, lease);
    T.TurnShrinks(s, readings(k), lease);
    TurnDraws(s, readings(k), lease);
    if T.ClaimTurn(s, readings(k), lease).1.None? {
      DrawsFrom(T.ClaimTurn(s, readings(k), lease).0, readings, k + 1, lease);
    }
  }

  lemma TurnDraws(s: Db, now: Time, lease: Id)
    ensures var (t, r) := T.ClaimTurn(s, now, lease);
            t.past.slots.Keys <= s.past.slots.Keys + {lease} && (r.None? || !r.value.Work? ==> t.past == s.past)
  {
    hide T.Judge; hide First; hide T.Leased; hide T.ClaimRank;
  }

  /** The delivery of a pass, after whatever others did: the lease may be gone by then, and then nothing happens. */
  method DeliverNext(store: Store, id: Id, lease: Id, k: nat)
    requires Inv(store.View()) && Unspent(store, k)
    requires id in store.intents && store.intents[id].row.lease == Some(lease)
    modifies store
    ensures Reach(old(store.View()), store.View()) && Inv(store.View()) && Unspent(store, k)
    ensures lease in store.past.slots && LetGo(store.View(), lease)
  {
    hide Inv; hide Reach; hide Kept; hide T.Deliver; hide IntentOk; hide LetGo;
    ghost var s0 := store.View();
    IntentOf(s0, id);
    SlotOf(s0.cfg, id, s0.intents[id], s0.past);
    store.Interfere();
    ghost var s1 := store.View();
    SlotKept(s0, s1, id, lease);
    var e: T.Surroundings := *;
    var now := store.clock;
    var later :| now <= later;
    DeliverDraws(s1, id, lease, now, later, e);
    DeliveryLetsGo(s1, id, lease, now, later, e);
    var delivered := store.Deliver(id, lease, now, later, e);
    ReachSelf(s1);
    ReachStep(s1, s1, DoDeliver(id, lease, now, later, e));
    ReachJoin(s0, s1, store.View());
  }

  lemma SlotKept(s: Db, t: Db, id: Id, lease: Id)
    requires Kept(s, t) && id in s.intents && lease in s.past.slots
    ensures id in t.intents && lease in t.past.slots && t.past.slots[lease] == s.past.slots[lease]
  {
  }

  lemma DeliverDraws(s: Db, id: Id, lease: Id, now: Time, later: Time, e: T.Surroundings)
    ensures T.Deliver(s, id, lease, now, later, e).0.past.slots == s.past.slots
  {
  }
}
