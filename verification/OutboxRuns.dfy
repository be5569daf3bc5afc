/** Runs of the outbox: any number of workers and requesters, their transactions interleaved in any
    order, with crashes (transactions that never happen). What holds over every run. */
module OutboxRuns {
  import opened Prelude
  import opened Ordering
  import opened OutboxModel
  import opened OutboxTransactions
  import opened OutboxInvariant

  /** One committed transaction and everything it read from outside the tables. */
  datatype Action =
    | DoClaim(readings: nat -> Time, lease: Id)
    | DoDeliver(id: Id, lease: Id, now: Time, later: Time, around: Surroundings)
    | DoRecover(id: Id, caps: Capabilities, answer: Lookup, now: Time)
    | DoErase(id: Id, cutoff: Time, now: Time)
    | DoDropAttempts(aged: set<(Id, nat)>, cutoff: Time)
    | DoDropCaptures(gone: set<Id>, cutoff: Time)
    | DoDropBuckets(cutoff: Time)
    | DoRequestVerification(ask: VerificationRequest, now: Time)
    | DoVerifyAddress(identity: Id, active: bool, challenge: Id, token: string, now: Time)
    | DoRequestMessage(notice: NoticeRequest, now: Time)

  /** Database time does not run backwards, identifiers are fresh, and housekeeping's cutoff lies the
      retention period in the past. */
  ghost predicate Possible(s: Db, a: Action) {
    match a
    case DoClaim(readings, lease) => Monotone(readings, s.clock) && lease !in s.past.slots
    case DoDeliver(_, _, now, later, _) => s.clock <= now <= later
    case DoRecover(_, _, _, now) => s.clock <= now
    case DoErase(_, cutoff, now) => s.clock <= now && cutoff + s.cfg.retentionDays * DAY_SECONDS <= now
    case DoDropAttempts(_, cutoff) => cutoff + s.cfg.retentionDays * DAY_SECONDS <= s.clock
    case DoDropCaptures(_, cutoff) => cutoff + s.cfg.retentionDays * DAY_SECONDS <= s.clock
    case DoDropBuckets(cutoff) => cutoff + s.cfg.retentionDays * DAY_SECONDS <= s.clock
    case DoRequestVerification(ask, now) => s.clock <= now && ask.challenge !in s.past.slots && ask.intent !in s.intents
    case DoVerifyAddress(_, _, _, _, now) => s.clock <= now
    case DoRequestMessage(notice, now) => s.clock <= now && notice.intent !in s.intents
  }

  ghost function Apply(s: Db, a: Action): Db {
    match a
    case DoClaim(readings, lease) => Claim(s, readings, lease).0
    case DoDeliver(id, lease, now, later, around) => Deliver(s, id, lease, now, later, around).0
    case DoRecover(id, caps, answer, now) => Recover(s, id, caps, answer, now).0
    case DoErase(id, cutoff, now) => Erase(s, id, cutoff, now).0
    case DoDropAttempts(aged, cutoff) => DropAttempts(s, aged, cutoff)
    case DoDropCaptures(gone, cutoff) => DropCaptures(s, gone, cutoff)
    case DoDropBuckets(cutoff) => DropBuckets(s, cutoff)
    case DoRequestVerification(ask, now) => RequestVerification(s, ask, now).0
    case DoVerifyAddress(identity, active, challenge, token, now) => VerifyAddress(s, identity, active, challenge, token, now).0
    case DoRequestMessage(notice, now) => RequestMessage(s, notice, now).0
  }

  ghost predicate Step(s: Db, t: Db) { exists a :: Possible(s, a) && t == Apply(s, a) }

  /** A run: every state follows from the one before by some possible transaction. */
  ghost predicate IsRun(run: seq<Db>) {
    run != [] && forall i | 0 <= i < |run| - 1 :: Step(run[i], run[i + 1])
  }

  ghost predicate FromEmpty(run: seq<Db>) {
    IsRun(run) && exists cfg: Settings, start: Time :: run[0] == EmptyDb(cfg, start)
  }

  /** Every transaction keeps the invariant and what must never change. */
  lemma ApplyKeeps(s: Db, a: Action)
    requires Inv(s) && Possible(s, a)
    ensures Inv(Apply(s, a)) && Kept(s, Apply(s, a))
  {
    hide Inv; hide Kept;
    match a
    case DoClaim(readings, lease) => ClaimKeeps(s, readings, lease);
    case DoDeliver(id, lease, now, later, around) => DeliverKeeps(s, id, lease, now, later, around);
    case DoRecover(id, caps, answer, now) => RecoverKeeps(s, id, caps, answer, now);
    case DoErase(id, cutoff, now) => EraseKeeps(s, id, cutoff, now);
    case DoDropAttempts(aged, cutoff) => DropAttemptsKeeps(s, aged, cutoff);
    case DoDropCaptures(gone, cutoff) => DropCapturesKeeps(s, gone, cutoff);
    case DoDropBuckets(cutoff) => DropBucketsKeeps(s, cutoff);
    case DoRequestVerification(ask, now) => RequestVerificationKeeps(s, ask, now);
    case DoVerifyAddress(identity, active, challenge, token, now) => VerifyAddressKeeps(s, identity, active, challenge, token, now);
    case DoRequestMessage(notice, now) => RequestMessageKeeps(s, notice, now);
  }

  /** Any stretch of a run that starts well stays well, and nothing absorbing is undone in it. */
  lemma {:induction false} RunKeeps(run: seq<Db>, i: nat, j: nat)
    requires IsRun(run) && i <= j < |run| && Inv(run[i])
    ensures Inv(run[j]) && Kept(run[i], run[j])
    decreases j - i
  {
    hide Inv; hide Kept; hide Step;
    if i == j {
      TickKeeps(run[i], run[i].clock);
      assert run[i].(clock := run[i].clock) == run[i];
    } else {
      RunKeeps(run, i, j - 1);
      assert Step(run[j - 1], run[j - 1 + 1]);
      StepKeeps(run[j - 1], run[j]);
      KeptTransitive(run[i], run[j - 1], run[j]);
    }
  }

  lemma StepKeeps(s: Db, t: Db)
    requires Inv(s) && Step(s, t)
    ensures Inv(t) && Kept(s, t)
  {
    hide Inv; hide Kept; hide Possible; hide Apply;
    var a :| Possible(s, a) && t == Apply(s, a);
    ApplyKeeps(s, a);
  }

  lemma ReachableOk(run: seq<Db>, i: nat)
    requires FromEmpty(run) && i < |run|
    ensures Inv(run[i])
  {
    hide Inv; hide Kept;
    var cfg: Settings, start: Time :| run[0] == EmptyDb(cfg, start);
    EmptyOk(cfg, start);
    RunKeeps(run, 0, i);
  }

  // ---------------------------------------------------------------- other workers

  ghost predicate RunBetween(run: seq<Db>, s: Db, t: Db) { IsRun(run) && run[0] == s && run[|run| - 1] == t }

  /** t can follow s by any number of transactions of anybody. */
  ghost predicate Reach(s: Db, t: Db) { exists run :: RunBetween(run, s, t) }

  lemma ReachSelf(s: Db)
    ensures Reach(s, s)
  {
    assert RunBetween([s], s, s);
  }

  lemma ReachStep(s: Db, t: Db, a: Action)
    requires Reach(s, t) && Possible(t, a)
    ensures Reach(s, Apply(t, a))
  {
    hide Possible; hide Apply;
    var run :| RunBetween(run, s, t);
    var more := run + [Apply(t, a)];
    forall i | 0 <= i < |more| - 1 ensures Step(more[i], more[i + 1]) {
      if i < |run| - 1 { assert Step(run[i], run[i + 1]); }
    }
    assert RunBetween(more, s, Apply(t, a));
  }

  lemma ReachJoin(s: Db, t: Db, u: Db)
    requires Reach(s, t) && Reach(t, u)
    ensures Reach(s, u)
  {
    hide Step;
    var r1 :| RunBetween(r1, s, t);
    var r2 :| RunBetween(r2, t, u);
    var run := r1 + r2[1..];
    forall i | 0 <= i < |run| - 1 ensures Step(run[i], run[i + 1]) {
      if i < |r1| - 1 { assert Step(r1[i], r1[i + 1]); }
      else { assert run[i] == r2[i - |r1| + 1]; assert Step(r2[i - |r1| + 1], r2[i - |r1| + 2]); }
    }
    assert RunBetween(run, s, u);
  }

  lemma ReachKeeps(s: Db, t: Db)
    requires Inv(s) && Reach(s, t)
    ensures Inv(t) && Kept(s, t)
  {
    hide Inv; hide Kept; hide Step;
    var run :| RunBetween(run, s, t);
    RunKeeps(run, 0, |run| - 1);
  }
}
