/** Each of the route's three answers, said on the recognised lines, the failure heads, the runner's summary and the
    question alone. */
module VerdictAnswers {
  import opened Prelude
  import opened VerdictOutcome
  import opened VerdictParse
  import opened VerdictClassify

  // ---------------------------------------------------------------- the log's own terms

  /** The runner's summary is present and agrees with every count of the log, every failure head belongs to a reported
      test, and every reported test is lawful. */
  ghost predicate Accounted(lines: seq<StatusLine>, heads: seq<Head>, s: Summary) {
    && s.verdict.Some? && s.ran == Some(|Order(lines)|) && s.countsRecognised
    && s.errors == CountHeads(heads, IsError) && s.failures == CountHeads(heads, IsFail)
    && s.skipped == CountLines(lines, IsSkip)
    && s.expectedFailures == CountLines(lines, IsMainXf) && s.unexpectedSuccesses == CountLines(lines, IsMainUs)
    && s.exit.Some? && (s.verdict == Some(true) <==> s.exit == Some(0))
    && (forall h | h in heads :: h.Head? && h.id in Order(lines))
    && (forall id | id in Order(lines) :: Lawful(Mains(EventsOf(lines, id)), Subs(EventsOf(lines, id)), BlocksOf(heads, id)))
  }

  /** Entry k is the last one for the name. */
  predicate LastFor(permitted: seq<Permit>, name: string, k: int) {
    0 <= k < |permitted| && permitted[k].id == name && forall j | k < j < |permitted| :: permitted[j].id != name
  }

  /** The last entry of the policy for the test, under its full name, holds in this mode. */
  ghost predicate Allows(q: Question, id: string) {
    exists k :: LastFor(q.permitted, if PREFIX <= id then id else PREFIX + id, k)
                && (q.permitted[k].condition == Always || (q.permitted[k].condition == FreshMode && q.freshMode))
  }

  ghost predicate SkipsAllowed(lines: seq<StatusLine>, q: Question) {
    forall l | l in lines && l.status == Some(Skipped) :: Allows(q, l.id)
  }

  ghost predicate NoStalePermit(q: Question) {
    q.fullSuite ==> forall e | e in q.permitted :: exists id :: id in q.collected && e.id == if PREFIX <= id then id else PREFIX + id
  }

  predicate FailureHead(h: Head) { h.Head? && h.kind in {Fail, Error} }

  ghost predicate SomeFailure(heads: seq<Head>) { exists h :: h in heads && FailureHead(h) }

  /** A fail-fast run that ended in FAILED after reporting the first few of the collected tests, in their order. */
  predicate Stopped(lines: seq<StatusLine>, s: Summary, q: Question) {
    q.failFast && q.code != 0 && s.verdict == Some(false) && Order(lines) != [] && Order(lines) <= q.collected
  }

  /** The log settles the question: it is accounted for, over all collected tests or, stopped at a failure, the first few. */
  ghost predicate Settled(lines: seq<StatusLine>, heads: seq<Head>, s: Summary, q: Question) {
    && SkipsAllowed(lines, q) && NoStalePermit(q) && Accounted(lines, heads, s)
    && (multiset(Order(lines)) == multiset(q.collected) || (Stopped(lines, s, q) && SomeFailure(heads)))
  }

  /** The test's own body failed by assertion: nothing in the block points to set-up, teardown or a sub-test. */
  predicate BodyFailure(h: Head, id: string) {
    h.Head? && h.id == id && h.kind == Fail && h.params == "" && !h.flush && !h.inTeardown && !h.inSetup && h.inBody
  }

  /** Every reported test failed by assertion in its body, nothing erred and nothing was skipped. */
  ghost predicate TargetsFailed(lines: seq<StatusLine>, heads: seq<Head>, q: Question) {
    && q.code != 0 && Order(lines) != []
    && (forall id | id in Order(lines) :: exists h :: h in heads && BodyFailure(h, id))
    && (forall h | h in heads && h.Head? :: h.kind != Error)
    && (forall l | l in lines :: l.status != Some(Skipped))
  }

  /** The three answers. FAIL: the log settles the question and a failure stands in it, or, for a run that was meant to
      fail, not every target failed as it should. PASS: a clean run, or every target failed as it should. What is left
      is INCOMPLETE. */
  lemma Answers(lines: seq<StatusLine>, heads: seq<Head>, s: Summary, q: Question)
    requires RealHeads(heads)
    ensures var v := ClassifyOf(ParsedOf(lines, heads, s, Some(q.collected)), q);
            && (v == Failed <==> Settled(lines, heads, s, q)
                                 && if q.expectFail then !TargetsFailed(lines, heads, q) else SomeFailure(heads))
            && (v == Pass <==> if q.expectFail then Settled(lines, heads, s, q) && TargetsFailed(lines, heads, q)
                               else CleanRun(lines, heads, s, q))
  {
    hide Settled; hide TargetsFailed; hide SomeFailure; hide CleanRun; hide ParsedOf; hide FailFastPrefix; hide Filter;
    hide Ids; hide Permitted; hide Reconciled;
    var out := ParsedOf(lines, heads, s, Some(q.collected));
    SettledIff(lines, heads, s, q);
    if Settled(lines, heads, s, q) {
      SettledParts(lines, heads, s, q);
      FailuresIff(lines, heads, s, q);
      if q.expectFail { TargetsIff(lines, heads, s, q); }
    }
    if !q.expectFail { PassIffClean(lines, heads, s, q); }
  }

  // ---------------------------------------------------------------- permits

  lemma {:induction false} PolicyIs(permitted: seq<Permit>, name: string)
    ensures name in Policy(permitted) <==> exists k :: LastFor(permitted, name, k)
    ensures forall k | LastFor(permitted, name, k) :: Policy(permitted)[name] == permitted[k].condition
  {
    if permitted != [] {
      var n := |permitted| - 1;
      PolicyIs(permitted[..n], name);
      if permitted[n].id == name {
        assert LastFor(permitted, name, n);
      } else {
        assert forall k :: LastFor(permitted, name, k) <==> LastFor(permitted[..n], name, k);
      }
    }
  }

  /** The dictionary of the policy holds the last entry for each test. */
  lemma PermittedIff(q: Question, id: string)
    ensures Permitted(q, id) <==> Allows(q, id)
  {
    hide Policy; hide LastFor;
    PolicyIs(q.permitted, Canonical(id));
    LastExists(q, id);
  }

  lemma LastExists(q: Question, id: string)
    ensures forall k | LastFor(q.permitted, Canonical(id), k) :: 0 <= k < |q.permitted|
  {
  }

  lemma {:induction false} SkipLines(lines: seq<StatusLine>, id: string)
    ensures CountEvents(EventsOf(lines, id), IsSkip) > 0 <==> exists l :: l in lines && l.id == id && l.status == Some(Skipped)
  {
    if lines != [] {
      var n := |lines| - 1;
      SkipLines(lines[..n], id);
      assert lines == lines[..n] + [lines[n]];
      var rest := EventsOf(lines[..n], id);
      if lines[n].id == id && lines[n].status.Some? {
        assert (rest + [EventOf(lines[n])])[..|rest|] == rest;
      }
    }
  }

  lemma {:induction false} Listed(lines: seq<StatusLine>)
    ensures forall l | l in lines :: l.id in Order(lines)
  {
    if lines != [] {
      var n := |lines| - 1;
      Listed(lines[..n]);
      assert lines == lines[..n] + [lines[n]];
    }
  }

  ghost predicate SkippedIn(lines: seq<StatusLine>, id: string) {
    exists l :: l in lines && l.id == id && l.status == Some(Skipped)
  }

  lemma SkipRecords(lines: seq<StatusLine>, heads: seq<Head>, r: Record)
    requires r in Records(lines, heads, Order(lines))
    ensures r.id in Order(lines) && (Skips(r) <==> SkippedIn(lines, r.id))
  {
    hide EventsOf; hide BlocksOf; hide Order; hide CountEvents; hide RecordOf;
    var ids := Order(lines);
    var k :| 0 <= k < |ids| && Records(lines, heads, ids)[k] == r;
    RecordFields(ids[k], EventsOf(lines, ids[k]), BlocksOf(heads, ids[k]));
    SkipLines(lines, ids[k]);
  }

  lemma RecordFor(lines: seq<StatusLine>, heads: seq<Head>, id: string) returns (r: Record)
    requires id in Order(lines)
    ensures r in Records(lines, heads, Order(lines)) && r.id == id
  {
    hide EventsOf; hide BlocksOf; hide Order; hide RecordOf;
    var ids := Order(lines);
    var k :| 0 <= k < |ids| && ids[k] == id;
    RecordFields(ids[k], EventsOf(lines, ids[k]), BlocksOf(heads, ids[k]));
    r := Records(lines, heads, ids)[k];
  }

  lemma SkipsIff(lines: seq<StatusLine>, heads: seq<Head>, s: Summary, q: Question)
    ensures var tests := ParsedOf(lines, heads, s, Some(q.collected)).tests;
            && ((exists r :: r in Filter(tests, Skips) && !Permitted(q, r.id)) <==> !SkipsAllowed(lines, q))
            && (Filter(tests, Skips) == [] <==> forall l | l in lines :: l.status != Some(Skipped))
  {
    hide Permitted; hide Allows; hide Order; hide Filter; hide ReconOf; hide Records; hide Skips;
    var tests := Records(lines, heads, Order(lines));
    Listed(lines);
    EmptyFilter(tests, Skips);
    if r :| r in tests && Skips(r) {
      SkipRecords(lines, heads, r);
      var l :| l in lines && l.id == r.id && l.status == Some(Skipped);
    }
    if r :| r in Filter(tests, Skips) && !Permitted(q, r.id) {
      SkipRecords(lines, heads, r);
      PermittedIff(q, r.id);
      var l :| l in lines && l.id == r.id && l.status == Some(Skipped);
    }
    if l :| l in lines && l.status == Some(Skipped) {
      var r := RecordFor(lines, heads, l.id);
      SkipRecords(lines, heads, r);
    }
    if l :| l in lines && l.status == Some(Skipped) && !Allows(q, l.id) {
      var r := RecordFor(lines, heads, l.id);
      SkipRecords(lines, heads, r);
      PermittedIff(q, l.id);
    }
  }

  // ---------------------------------------------------------------- blocks and failures

  lemma {:induction false} BlockHeads(heads: seq<Head>, id: string)
    ensures forall b :: b in BlocksOf(heads, id) <==> exists h :: h in heads && h.Head? && h.id == id && BlockOf(h) == b
  {
    if heads != [] {
      var n := |heads| - 1;
      BlockHeads(heads[..n], id);
      assert heads == heads[..n] + [heads[n]];
    }
  }

  /** A record is failing exactly when a FAIL or ERROR block is filed under it. */
  lemma FailingIff(id: string, ev: seq<Event>, bs: seq<Block>)
    requires LogBlocks(bs)
    ensures Failing(RecordOf(id, ev, bs)) <==> exists b :: b in bs && b.kind in {Fail, Error}
  {
    hide Accounting;
    var sub := OfPhase(bs, Subtest);
    SubKinds(bs);
    Empties(bs);
    if Failing(RecordOf(id, ev, bs)) {
      var p := if OfPhase(bs, Setup) != [] then Setup else if OfPhase(bs, Body) != [] then Body
               else if OfPhase(bs, Unclassified) != [] then Unclassified else if sub != [] then Subtest else Teardown;
      assert OfPhase(bs, p) != [];
      var b := OfPhase(bs, p)[0];
      assert b in OfPhase(bs, p) && b in bs && b.phase == p && LogBlock(b);
    }
    if b :| b in bs && b.kind in {Fail, Error} {
      assert LogBlock(b);
      match b.phase
      case Setup => assert b in OfPhase(bs, Setup);
      case Teardown => assert b in OfPhase(bs, Teardown);
      case Subtest => assert b in OfPhase(bs, Subtest);
      case Unclassified => assert b in OfPhase(bs, Unclassified); BodyKind(bs);
      case Body => assert b in OfPhase(bs, Body); BodyKind(bs);
      case Unexpected =>
    }
  }

  lemma BodyKind(bs: seq<Block>)
    requires LogBlocks(bs)
    ensures OfPhase(bs, Body) != [] ==> OfPhase(bs, Body)[0].kind in {Fail, Error}
  {
    var bodies := OfPhase(bs, Body);
    if bodies != [] { assert bodies[0] in bodies && bodies[0] in bs && LogBlock(bodies[0]); }
  }

  lemma Empties(bs: seq<Block>)
    ensures OfPhase(bs, Subtest) == [] ==> OfKind(OfPhase(bs, Subtest), Fail) == [] && OfKind(OfPhase(bs, Subtest), Error) == []
  {
  }

  lemma FailuresIff(lines: seq<StatusLine>, heads: seq<Head>, s: Summary, q: Question)
    requires RealHeads(heads) && forall h | h in heads :: h.Head? && h.id in Order(lines)
    ensures Filter(ParsedOf(lines, heads, s, Some(q.collected)).tests, Failing) != [] <==> SomeFailure(heads)
  {
    hide EventsOf; hide BlocksOf; hide Order; hide Filter; hide ReconOf; hide RecordOf; hide Failing;
    var ids := Order(lines);
    var tests := Records(lines, heads, ids);
    EmptyFilter(tests, Failing);
    forall k | 0 <= k < |ids|
      ensures Failing(tests[k]) <==> exists h :: h in heads && h.Head? && h.id == ids[k] && FailureHead(h)
    {
      BlocksAreLogBlocks(heads, ids[k]);
      FailingIff(ids[k], EventsOf(lines, ids[k]), BlocksOf(heads, ids[k]));
      BlockHeads(heads, ids[k]);
      if h :| h in heads && h.Head? && h.id == ids[k] && FailureHead(h) { assert BlockOf(h) in BlocksOf(heads, ids[k]); }
    }
    if h :| h in heads && FailureHead(h) {
      var k :| 0 <= k < |ids| && ids[k] == h.id;
      assert tests[k] in tests;
    }
    if r :| r in tests && Failing(r) {
      var k :| 0 <= k < |ids| && tests[k] == r;
    }
  }

  // ---------------------------------------------------------------- reconciliation

  lemma {:induction false} AllMatched(heads: seq<Head>)
    ensures UnmatchedCount(heads) == 0 <==> forall h | h in heads :: h.Head?
  {
    if heads != [] {
      var n := |heads| - 1;
      AllMatched(heads[..n]);
      assert heads == heads[..n] + [heads[n]];
      assert heads[n] in heads && forall h | h in heads[..n] :: h in heads;
    }
  }

  lemma LawfulTests(lines: seq<StatusLine>, heads: seq<Head>)
    requires RealHeads(heads)
    ensures (forall r | r in Records(lines, heads, Order(lines)) :: r.derived.problem == None)
            <==> forall id | id in Order(lines) :: Lawful(Mains(EventsOf(lines, id)), Subs(EventsOf(lines, id)), BlocksOf(heads, id))
  {
    hide EventsOf; hide BlocksOf; hide Order; hide Lawful; hide Accounting; hide ResultFromBlocks;
    var ids := Order(lines);
    var rs := Records(lines, heads, ids);
    forall k | 0 <= k < |ids|
      ensures rs[k].derived.problem == None
              <==> Lawful(Mains(EventsOf(lines, ids[k])), Subs(EventsOf(lines, ids[k])), BlocksOf(heads, ids[k]))
    {
      BlocksAreLogBlocks(heads, ids[k]);
      LawfulIff(Mains(EventsOf(lines, ids[k])), Subs(EventsOf(lines, ids[k])), BlocksOf(heads, ids[k]));
    }
    assert forall k | 0 <= k < |ids| :: rs[k] in rs && ids[k] in ids;
  }

  lemma ReconIff(lines: seq<StatusLine>, heads: seq<Head>, s: Summary, collected: seq<string>)
    requires RealHeads(heads)
    ensures var r := ReconOf(lines, heads, s, Some(collected));
            && (r == ALL_RECONCILED <==> Accounted(lines, heads, s) && multiset(Order(lines)) == multiset(collected))
            && (OnlyCollectedFails(r) <==> Accounted(lines, heads, s) && multiset(Order(lines)) != multiset(collected))
  {
    hide EventsOf; hide BlocksOf; hide Order; hide Lawful; hide Records; hide CountHeads; hide CountLines; hide UnmatchedCount;
    AllMatched(heads);
    LawfulTests(lines, heads);
    assert (forall h | h in heads :: h.Head?) ==>
             ((forall id | id in Blamed(heads) :: id in Order(lines)) <==> forall h | h in heads :: h.id in Order(lines)) by {
      assert forall h | h in heads && h.Head? :: h.id in Blamed(heads);
    }
  }

  /** A lawful test has reported something. */
  lemma AllReported(lines: seq<StatusLine>, heads: seq<Head>, s: Summary, q: Question)
    requires Accounted(lines, heads, s)
    ensures Ids(Filter(ParsedOf(lines, heads, s, Some(q.collected)).tests, Reported)) == Order(lines)
  {
    hide EventsOf; hide BlocksOf; hide Order; hide CountHeads; hide CountLines; hide ReconOf; hide Filter; hide Ids;
    var ids := Order(lines);
    var tests := Records(lines, heads, ids);
    forall r | r in tests ensures Reported(r) {
      var k :| 0 <= k < |ids| && tests[k] == r;
      assert ids[k] in ids;
      RecordFields(ids[k], EventsOf(lines, ids[k]), BlocksOf(heads, ids[k]));
    }
    FilterAll(tests, Reported);
    forall k | 0 <= k < |ids| ensures tests[k].id == ids[k] {
      RecordFields(ids[k], EventsOf(lines, ids[k]), BlocksOf(heads, ids[k]));
    }
    assert Ids(tests) == ids;
  }

  lemma {:induction false} FilterAll<T(!new)>(xs: seq<T>, p: T -> bool)
    requires forall x | x in xs :: p(x)
    ensures Filter(xs, p) == xs
  {
    if xs != [] { FilterAll(xs[1..], p); }
  }

  /** Where the decision does not end in its first three refusals. */
  lemma SettledIff(lines: seq<StatusLine>, heads: seq<Head>, s: Summary, q: Question)
    requires RealHeads(heads)
    ensures var out := ParsedOf(lines, heads, s, Some(q.collected));
            var failures, skips := Filter(out.tests, Failing), Filter(out.tests, Skips);
            var prefix := FailFastPrefix(out, q, Ids(Filter(out.tests, Reported)), failures);
            Settled(lines, heads, s, q) <==>
              && !(exists r :: r in skips && !Permitted(q, r.id))
              && !(q.fullSuite && exists e :: e in q.permitted && (forall id | id in q.collected :: Canonical(id) != e.id))
              && (Reconciled(out) || prefix)
  {
    hide Accounted; hide SkipsAllowed; hide Order; hide Filter; hide Ids; hide Permitted; hide SomeFailure; hide ReconOf;
    hide Records;
    ReconIff(lines, heads, s, q.collected);
    SkipsIff(lines, heads, s, q);
    if Accounted(lines, heads, s) {
      AllReported(lines, heads, s, q);
      Matched(lines, heads, s);
      FailuresIff(lines, heads, s, q);
    }
  }

  lemma Matched(lines: seq<StatusLine>, heads: seq<Head>, s: Summary)
    requires Accounted(lines, heads, s)
    ensures s.ran == Some(|Order(lines)|) && forall h | h in heads :: h.Head? && h.id in Order(lines)
  {
  }

  lemma SettledParts(lines: seq<StatusLine>, heads: seq<Head>, s: Summary, q: Question)
    requires Settled(lines, heads, s, q)
    ensures Accounted(lines, heads, s) && forall h | h in heads :: h.Head? && h.id in Order(lines)
  {
  }

  // ---------------------------------------------------------------- runs that are meant to fail

  lemma {:induction false} NoErrors(heads: seq<Head>)
    ensures CountHeads(heads, IsError) == 0 <==> forall h | h in heads && h.Head? :: h.kind != Error
  {
    if heads != [] {
      var n := |heads| - 1;
      NoErrors(heads[..n]);
      assert heads == heads[..n] + [heads[n]];
    }
  }

  lemma TargetIff(lines: seq<StatusLine>, heads: seq<Head>, id: string)
    requires RealHeads(heads)
    requires Lawful(Mains(EventsOf(lines, id)), Subs(EventsOf(lines, id)), BlocksOf(heads, id))
    ensures RecordOf(id, EventsOf(lines, id), BlocksOf(heads, id)).derived.result == BodyResult(Fail)
            <==> exists h :: h in heads && BodyFailure(h, id)
  {
    hide EventsOf; hide BlocksOf; hide Lawful; hide Accounting; hide ResultFromBlocks; hide Mains; hide Subs;
    var bs := BlocksOf(heads, id);
    BlocksAreLogBlocks(heads, id);
    LabelIff(Mains(EventsOf(lines, id)), Subs(EventsOf(lines, id)), bs);
    BlockHeads(heads, id);
    if h :| h in heads && BodyFailure(h, id) { assert BlockOf(h) in bs; }
  }

  lemma AllTargets(lines: seq<StatusLine>, heads: seq<Head>)
    requires RealHeads(heads)
    requires forall id | id in Order(lines) :: Lawful(Mains(EventsOf(lines, id)), Subs(EventsOf(lines, id)), BlocksOf(heads, id))
    ensures (forall r | r in Records(lines, heads, Order(lines)) :: r.derived.result == BodyResult(Fail))
            <==> forall id | id in Order(lines) :: exists h :: h in heads && BodyFailure(h, id)
  {
    hide EventsOf; hide BlocksOf; hide Order; hide RecordOf; hide BodyFailure; hide Lawful; hide Mains; hide Subs;
    var ids := Order(lines);
    var tests := Records(lines, heads, ids);
    forall k | 0 <= k < |ids|
      ensures tests[k].derived.result == BodyResult(Fail) <==> exists h :: h in heads && BodyFailure(h, ids[k])
    {
      assert ids[k] in ids;
      TargetIff(lines, heads, ids[k]);
    }
    assert forall k | 0 <= k < |ids| :: tests[k] in tests && ids[k] in ids;
  }

  lemma TargetsIff(lines: seq<StatusLine>, heads: seq<Head>, s: Summary, q: Question)
    requires RealHeads(heads) && Accounted(lines, heads, s)
    ensures var out := ParsedOf(lines, heads, s, Some(q.collected));
            TargetsFailed(lines, heads, q) <==>
              && out.tests != [] && (forall r | r in out.tests :: r.derived.result == BodyResult(Fail))
              && out.summary.errors == 0 && Filter(out.tests, Skips) == [] && q.code != 0
  {
    hide EventsOf; hide BlocksOf; hide Order; hide Filter; hide ReconOf; hide CountHeads; hide CountLines;
    hide RecordOf; hide BodyFailure; hide Lawful; hide Mains; hide Subs; hide Skips; hide Records;
    NoErrors(heads);
    SkipsIff(lines, heads, s, q);
    AllTargets(lines, heads);
  }
}
