/** What housekeeping takes away and what it leaves, said on the columns of the rows. */
module OutboxErasing {
  import opened Prelude
  import opened OutboxModel
  import opened OutboxTransactions
  import opened OutboxInvariant
  import opened OutboxRuns
  import opened OutboxTheorems

  /** Finished at or before the cutoff. */
  predicate Over(row: Row, cutoff: Time) {
    row.state in {ProviderAccepted, Failed, Suppressed} && row.terminalAt.Some? && row.terminalAt.value <= cutoff
  }

  /** The row carries a challenge that the recipient can no longer answer. */
  predicate Unanswerable(s: Db, row: Row, now: Time) {
    row.challenge.Some?
    && !(row.recipient in s.addresses
         && var a := s.addresses[row.recipient];
            a.challenge == row.challenge && a.digest.Some? && a.expiresAt.Some? && now < a.expiresAt.value)
  }

  /** Which rows are scanned for, and which an erasing transaction still finds so: payload there, nobody holding or
      doubting it, and finished long enough or its challenge ended. */
  lemma ErasedIff(t: Turn, cutoff: Time)
    requires IsErasure(t, cutoff)
    ensures t.changed <==>
              t.id in t.before.intents
              && var x := t.before.intents[t.id].row;
                 x.erasedAt.None? && x.lease.None? && x.state != AcceptanceUncertain
                 && (Over(x, cutoff) || Unanswerable(t.before, x, t.after.clock))
    ensures !t.changed ==> t.after == t.before.(clock := t.after.clock)
  {
    hide EraseIntent;
  }

  lemma CandidateIff(s: Db, cutoff: Time, id: Id)
    ensures id in Candidates(s, cutoff) <==>
              id in s.intents
              && var x := s.intents[id].row;
                 x.erasedAt.None? && x.lease.None? && x.state != AcceptanceUncertain
                 && (Over(x, cutoff) || Unanswerable(s, x, s.clock))
  {
  }

  /** An erasing transaction blanks the payload and closes a row that was still waiting. Nothing is left of the capture
      and the attempts of a row that is finished long enough; of any other the attempts stay, and of the capture all but
      its content. An expired challenge that the row carries is gone from the address record. Nothing else changes. */
  lemma ErasureLeaves(t: Turn, cutoff: Time)
    requires Inv(t.before) && IsErasure(t, cutoff) && t.changed
    ensures var x := t.before.intents[t.id]; var now := t.after.clock;
            && t.id in t.after.intents
            && var y := t.after.intents[t.id];
            && y.row == (if x.row.state in {Requested, Queued}
                         then x.row.(state := Suppressed, lastCode := ChallengeEnded, terminalAt := Some(now))
                         else x.row).(payload := Payload("", "", "", ""), erasedAt := Some(now))
            && (Over(y.row, cutoff) ==> y.capture == None && y.attempts == map[])
            && (!Over(y.row, cutoff) ==>
                  && y.attempts == x.attempts && (y.capture.Some? <==> x.capture.Some?)
                  && (x.capture.Some? ==> y.capture.value == Capture(x.capture.value.digest, x.capture.value.capturedAt,
                                                                     Payload("", "", "", ""))))
            && t.after == t.before.(clock := now, intents := t.before.intents[t.id := y], addresses := t.after.addresses)
    ensures var x := t.before.intents[t.id].row; var p := x.recipient;
            var gone := p in t.before.addresses && x.challenge.Some? && t.before.addresses[p].challenge == x.challenge
                        && t.before.addresses[p].expiresAt.Some? && t.before.addresses[p].expiresAt.value <= t.after.clock;
            t.after.addresses == if gone then t.before.addresses[p := t.before.addresses[p].(challenge := None, digest := None,
                                                                      pending := "", expiresAt := None)]
                                 else t.before.addresses
  {
    hide IntentsOk; hide KeysOk; hide QuotaOk; hide IssuesOk; hide ChallengeDead;
    var p := t.before.intents[t.id].row.recipient;
    if p in t.before.addresses { assert ChallengeOk(p, t.before.addresses[p], t.before.past); }
    if p in t.before.addresses && t.after.addresses == t.before.addresses {
      assert t.before.addresses[p := t.before.addresses[p]] == t.before.addresses;
    }
  }

  /** In every state of a run: once a row is redacted nothing of its message is left anywhere, and until then the capture
      of an accepted row is the message itself. */
  lemma NothingReadable(run: seq<Db>, i: nat, id: Id)
    requires FromEmpty(run) && i < |run| && id in run[i].intents
    ensures var x := run[i].intents[id];
            && (x.row.erasedAt.Some? ==> x.row.payload == Payload("", "", "", ""))
            && (x.capture.Some? ==> x.capture.value.content == x.row.payload)
            && (x.row.erasedAt.None? ==> MessageDigest(x.row.payload) == x.row.deliveryDigest)
  {
    hide FromEmpty;
    ReachableOk(run, i);
    IntentOf(run[i], id);
  }

  // ---------------------------------------------------------------- the closing deletions

  /** An attempt may be deleted when it ended at or before the cutoff and its row is finished. */
  predicate EndedLongAgo(i: Intent, n: nat, cutoff: Time) {
    n in i.attempts && i.row.state in {ProviderAccepted, Failed, Suppressed}
    && i.attempts[n].finishedAt.Some? && i.attempts[n].finishedAt.value <= cutoff
  }

  predicate CapturedLongAgo(i: Intent, cutoff: Time) {
    i.row.state in {ProviderAccepted, Failed, Suppressed} && i.capture.Some? && i.capture.value.capturedAt <= cutoff
  }

  /** The deletions take only what is old; an attempt or capture that is not is left as it was, whatever was chosen. */
  lemma OnlyOldIsDeleted(s: Db, attempts: set<(Id, nat)>, captures: set<Id>, cutoff: Time, id: Id, n: nat)
    requires id in s.intents
    ensures var t := DropAttempts(s, attempts, cutoff);
            && id in t.intents && t.intents[id].row == s.intents[id].row && t.intents[id].capture == s.intents[id].capture
            && (n in s.intents[id].attempts && !EndedLongAgo(s.intents[id], n, cutoff) ==>
                  n in t.intents[id].attempts && t.intents[id].attempts[n] == s.intents[id].attempts[n])
    ensures var t := DropCaptures(s, captures, cutoff);
            && id in t.intents && t.intents[id].row == s.intents[id].row && t.intents[id].attempts == s.intents[id].attempts
            && (!CapturedLongAgo(s.intents[id], cutoff) ==> t.intents[id].capture == s.intents[id].capture)
  {
  }

  /** When the limit does not cut them short, nothing old is left, and no capacity row from before the cutoff's day. */
  lemma NothingOldIsLeft(s: Db, attempts: set<(Id, nat)>, captures: set<Id>, limit: nat, cutoff: Time)
    ensures Chosen(attempts, OldAttempts(s.intents, cutoff), limit) && |OldAttempts(s.intents, cutoff)| <= limit ==>
              var t := DropAttempts(s, attempts, cutoff);
              forall id, n | id in t.intents && n in t.intents[id].attempts :: !EndedLongAgo(t.intents[id], n, cutoff)
    ensures Chosen(captures, OldCaptures(s.intents, cutoff), limit) && |OldCaptures(s.intents, cutoff)| <= limit ==>
              var t := DropCaptures(s, captures, cutoff);
              forall id | id in t.intents :: !CapturedLongAgo(t.intents[id], cutoff)
    ensures var t := DropBuckets(s, cutoff);
            && t == s.(buckets := t.buckets)
            && (forall d :: d in t.buckets <==> d in s.buckets && cutoff < (d + 1) * DAY_SECONDS)
            && forall d | d in t.buckets :: t.buckets[d] == s.buckets[d]
  {
    if Chosen(attempts, OldAttempts(s.intents, cutoff), limit) && |OldAttempts(s.intents, cutoff)| <= limit {
      AttemptsLeft(s, attempts, limit, cutoff);
      NoOldAttempts(DropAttempts(s, attempts, cutoff), cutoff);
    }
    if Chosen(captures, OldCaptures(s.intents, cutoff), limit) && |OldCaptures(s.intents, cutoff)| <= limit {
      CapturesLeft(s, captures, limit, cutoff);
      NoOldCaptures(DropCaptures(s, captures, cutoff), cutoff);
    }
  }

  lemma NoOldAttempts(t: Db, cutoff: Time)
    requires OldAttempts(t.intents, cutoff) == {}
    ensures forall id, n | id in t.intents && n in t.intents[id].attempts :: !EndedLongAgo(t.intents[id], n, cutoff)
  {
    forall id, n | id in t.intents && n in t.intents[id].attempts ensures !EndedLongAgo(t.intents[id], n, cutoff) {
      assert (id, n) !in OldAttempts(t.intents, cutoff);
    }
  }

  lemma NoOldCaptures(t: Db, cutoff: Time)
    requires OldCaptures(t.intents, cutoff) == {}
    ensures forall id | id in t.intents :: !CapturedLongAgo(t.intents[id], cutoff)
  {
    forall id | id in t.intents ensures !CapturedLongAgo(t.intents[id], cutoff) {
      assert id !in OldCaptures(t.intents, cutoff);
    }
  }
}
