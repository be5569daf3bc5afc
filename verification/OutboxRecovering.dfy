/** What recovery looks for and what it makes of a row, said on the row's columns. */
module OutboxRecovering {
  import opened Prelude
  import opened Ordering
  import opened OutboxModel
  import opened OutboxTransactions
  import opened OutboxInvariant
  import opened OutboxRuns
  import opened OutboxTheorems
  import opened OutboxClaiming
  import opened OutboxDelivery

  predicate RanOut(row: Row, now: Time) { row.state == Queued && row.leaseUntil.Some? && row.leaseUntil.value <= now }

  /** A recovery transaction changes a row exactly when its lease ran out, or it is uncertain and the adapter accepts it
      or, authoritative and capturing locally, denies it; any other leaves everything as it was. */
  lemma RecoveredIff(s: Db, id: Id, caps: Capabilities, answer: Lookup, now: Time)
    requires Inv(s) && s.clock <= now
    ensures var (t, changed) := Recover(s, id, caps, answer, now);
            && (changed <==> id in s.intents
                             && (RanOut(s.intents[id].row, now)
                                 || (s.intents[id].row.state == AcceptanceUncertain
                                     && (answer == Accepted
                                         || (answer == Absent && caps.authoritativeAbsence && caps.localCapture)))))
            && (!changed ==> t == s.(clock := now))
  {
    hide Inv; hide RecoverIntent; hide IntentOk;
    if id in s.intents {
      IntentOf(s, id);
      if RanOut(s.intents[id].row, now) { ExpiredRecovers(s.cfg, id, s.intents[id], caps, answer, now, s.past); }
      else if s.intents[id].row.state == AcceptanceUncertain { ReconciledIntent(s.cfg, id, s.intents[id], caps, answer, now, s.past); }
      else { Untouchable(s.cfg, s.intents[id], caps, answer, now); }
    }
  }

  lemma Untouchable(cfg: Settings, i: Intent, caps: Capabilities, answer: Lookup, now: Time)
    requires !RanOut(i.row, now) && i.row.state != AcceptanceUncertain
    ensures RecoverIntent(cfg, i, caps, answer, now) == None
  {
  }

  /** An uncertain row that is moved: accepted, or queued again for after the retry interval, or failed for want of
      budget; its newest attempt is over with it, and nothing else changes. */
  lemma ReconciliationLeaves(s: Db, id: Id, caps: Capabilities, answer: Lookup, now: Time)
    requires Inv(s) && s.clock <= now && id in s.intents && s.intents[id].row.state == AcceptanceUncertain
    requires Recover(s, id, caps, answer, now).1
    ensures var t := Recover(s, id, caps, answer, now).0;
            && (answer == Accepted ==>
                  Ended(s, t, id, ProviderAccepted, if caps.localCapture then CapturedLocal else AcceptedByProvider, now))
            && (answer != Accepted ==>
                  Ended(s, t, id, if s.intents[id].row.attemptCount < s.cfg.maxAttempts then Queued else Failed, LeaseRecovered, now))
            && t.past == s.past && t.intents[id].capture == s.intents[id].capture
  {
    hide Inv; hide RecoverIntent; hide IntentOk;
    IntentOf(s, id);
    RecoveredIff(s, id, caps, answer, now);
    ReconciledRow(s.cfg, id, s.intents[id], caps, answer, now, s.past);
  }

  /** A lease that ran out is taken back without asking anybody: the row waits again at once under the same number, and
      nothing else changes. */
  lemma ReclaimLeaves(s: Db, id: Id, caps: Capabilities, answer: Lookup, now: Time)
    requires Inv(s) && s.clock <= now && id in s.intents && RanOut(s.intents[id].row, now)
    ensures var t := Recover(s, id, caps, answer, now).0;
            && id in t.intents && TakenBack(t.intents[id]) && t.intents[id].capture == s.intents[id].capture
            && t.intents[id].row == s.intents[id].row.(lastCode := ClaimRecovered, lease := None, leaseUntil := None,
                                                       terminalAt := None, readyAt := now)
            && t == s.(clock := now, intents := s.intents[id := t.intents[id]])
  {
    hide Inv; hide RecoverIntent; hide IntentOk;
    IntentOf(s, id);
    LeaseIsDrawn(s.cfg, id, s.intents[id], s.past);
    ReclaimedRow(s, id, caps, answer, now);
  }

  /** The scan finds exactly the leases that ran out and the uncertain rows: the former first, the older first among
      either. */
  lemma ScanOrder(intents: map<Id, Intent>, now: Time, ids: seq<Id>)
    requires ids == Sorted(RecoverIds(intents, now), RecoverRank(intents))
    ensures forall id :: id in ids <==> id in intents
                                        && (RanOut(intents[id].row, now) || intents[id].row.state == AcceptanceUncertain)
    ensures forall x, y | 0 <= x < y < |ids| ::
              ids[x] in intents && ids[y] in intents
              && (intents[ids[x]].row.state == intents[ids[y]].row.state ==>
                    intents[ids[x]].row.createdAt <= intents[ids[y]].row.createdAt)
              && (intents[ids[y]].row.state == Queued ==> intents[ids[x]].row.state == Queued)
  {
    hide Sorted;
    forall x, y | 0 <= x < y < |ids|
      ensures ids[x] in intents && ids[y] in intents
      ensures intents[ids[x]].row.state == intents[ids[y]].row.state ==>
                intents[ids[x]].row.createdAt <= intents[ids[y]].row.createdAt
      ensures intents[ids[y]].row.state == Queued ==> intents[ids[x]].row.state == Queued
    {
      assert ids[x] in ids && ids[y] in ids;
      assert Before(RecoverRank(intents)(ids[x]), RecoverRank(intents)(ids[y]));
    }
  }
}
