/** The route's decision about a parsed log, and what its PASS is worth. */
module VerdictClassify {
  import opened Prelude
  import opened VerdictOutcome
  import opened VerdictParse

  datatype Condition = Always | FreshMode | OtherCondition

  datatype Permit = Permit(id: string, condition: Condition)

  datatype Question = Question(code: int, failFast: bool, permitted: seq<Permit>, freshMode: bool, expectFail: bool,
                               collected: seq<string>, fullSuite: bool)

  datatype Verdict = Pass | Failed | Incomplete

  const PREFIX := "tests."

  function Canonical(id: string): string { if PREFIX <= id then id else PREFIX + id }

  /** The skip policy as a dictionary: the last entry for an id wins. */
  function Policy(permitted: seq<Permit>): map<string, Condition> {
    if permitted == [] then map[]
    else
      var last := permitted[|permitted| - 1];
      Policy(permitted[..|permitted| - 1])[last.id := last.condition]
  }

  predicate Permitted(q: Question, id: string) {
    var policy := Policy(q.permitted);
    Canonical(id) in policy
    && (policy[Canonical(id)] == Always || (policy[Canonical(id)] == FreshMode && q.freshMode))
  }

  predicate Failing(r: Record) {
    r.derived.result in {BodyResult(Fail), BodyResult(Error), SubtestFailures, NotReached, UnclassifiedResult}
    || r.setupErrors > 0 || r.teardownErrors > 0 || r.subFailures > 0 || r.subErrors > 0
  }

  predicate Reported(r: Record) { r.events != [] || r.setupErrors > 0 || r.teardownErrors > 0 }

  predicate Skips(r: Record) { r.skips > 0 }

  function Ids(rs: seq<Record>): (r: seq<string>)
    ensures |r| == |rs| && forall k | 0 <= k < |rs| :: r[k] == rs[k].id
  {
    if rs == [] then [] else [rs[0].id] + Ids(rs[1..])
  }

  /** A fail-fast run that stopped at a failure: the reported tests are a prefix of the collected ones, and
      that is all the reconciliation misses. */
  predicate FailFastPrefix(out: Parsed, q: Question, reported: seq<string>, failures: seq<Record>) {
    q.failFast && q.collected != [] && failures != [] && q.code != 0 && reported != []
    && reported <= q.collected
    && OnlyCollectedFails(out.recon)
    && out.summary.ran == Some(|out.tests|) && out.summary.verdict == Some(false)
  }

  function ClassifyOf(out: Parsed, q: Question): Verdict {
    var failures := Filter(out.tests, Failing);
    var skips := Filter(out.tests, Skips);
    var reported := Ids(Filter(out.tests, Reported));
    var prefix := FailFastPrefix(out, q, reported, failures);
    if exists r :: r in skips && !Permitted(q, r.id) then Incomplete
    else if q.fullSuite && exists e :: e in q.permitted && (forall id | id in q.collected :: Canonical(id) != e.id) then Incomplete
    else if !Reconciled(out) && !prefix then Incomplete
    else if q.expectFail then
      if out.tests != [] && (forall r | r in out.tests :: r.derived.result == BodyResult(Fail))
         && out.summary.errors == 0 && skips == [] && q.code != 0 then Pass else Failed
    else if failures != [] then Failed
    else if exists id :: id in q.collected && id !in reported then Incomplete
    else if exists r :: r in out.tests && r.derived.result !in {OkResult, SkippedResult} then Incomplete
    else if q.code != 0 || out.summary.verdict != Some(true) then Incomplete
    else Pass
  }

  method BuildPolicy(permitted: seq<Permit>) returns (policy: map<string, Condition>)
    ensures policy == Policy(permitted)
  {
    policy := map[];
    for i := 0 to |permitted|
      invariant policy == Policy(permitted[..i])
    {
      assert permitted[..i + 1][..i] == permitted[..i];
      policy := policy[permitted[i].id := permitted[i].condition];
    }
    assert permitted[..|permitted|] == permitted;
  }

  /** The loop of `classify`: one pass over the tests fills the lists the decision is taken on. */
  method Tally(tests: seq<Record>, q: Question)
    returns (failures: seq<Record>, skips: seq<Record>, reported: seq<string>, unpermitted: bool)
    ensures failures == Filter(tests, Failing) && skips == Filter(tests, Skips) && reported == Ids(Filter(tests, Reported))
    ensures unpermitted <==> exists r :: r in skips && !Permitted(q, r.id)
  {
    hide Filter; hide Ids; hide Failing; hide Reported;
    var policy := BuildPolicy(q.permitted);
    failures, skips, reported, unpermitted := [], [], [], false;
    TallyStart();
    for i := 0 to |tests|
      invariant failures == Filter(tests[..i], Failing)
      invariant skips == Filter(tests[..i], Skips)
      invariant reported == Ids(Filter(tests[..i], Reported))
      invariant unpermitted <==> exists r :: r in skips && !Permitted(q, r.id)
    {
      var r := tests[i];
      TallyStep(tests, i, Failing);
      TallyStep(tests, i, Skips);
      TallyStep(tests, i, Reported);
      IdsAppend(Filter(tests[..i], Reported), r);
      if r.events != [] || r.setupErrors > 0 || r.teardownErrors > 0 {
        assert Reported(r) by { ReportedIs(r); }
        reported := reported + [r.id];
      } else {
        ReportedIs(r);
      }
      if Failing(r) { failures := failures + [r]; }
      if r.skips > 0 {
        var name := if PREFIX <= r.id then r.id else PREFIX + r.id;
        var allowed := name in policy && (policy[name] == Always || (policy[name] == FreshMode && q.freshMode));
        assert allowed == Permitted(q, r.id);
        skips := skips + [r];
        if !allowed { unpermitted := true; }
      }
    }
    assert tests[..|tests|] == tests;
  }

  lemma TallyStart()
    ensures Filter([], Failing) == [] && Filter([], Skips) == [] && Ids(Filter([], Reported)) == []
  {
  }

  lemma ReportedIs(r: Record)
    ensures Reported(r) <==> r.events != [] || r.setupErrors > 0 || r.teardownErrors > 0
  {
  }

  lemma TallyStep(tests: seq<Record>, i: nat, p: Record -> bool)
    requires i < |tests|
    ensures Filter(tests[..i + 1], p) == Filter(tests[..i], p) + if p(tests[i]) then [tests[i]] else []
  {
    assert tests[..i + 1] == tests[..i] + [tests[i]];
    FilterAppend(tests[..i], [tests[i]], p);
  }

  /** `classify`. */
  method Classify(out: Parsed, q: Question) returns (v: Verdict)
    ensures v == ClassifyOf(out, q)
  {
    hide Filter; hide Ids; hide Failing; hide Permitted;
    var failures, skips, reported, unpermitted := Tally(out.tests, q);
    if unpermitted { return Incomplete; }
    if q.fullSuite && exists e :: e in q.permitted && (forall id | id in q.collected :: Canonical(id) != e.id) {
      return Incomplete;
    }
    var prefix := FailFastPrefix(out, q, reported, failures);
    if !Reconciled(out) && !prefix { return Incomplete; }
    if q.expectFail {
      if out.tests != [] && (forall r | r in out.tests :: r.derived.result == BodyResult(Fail))
         && out.summary.errors == 0 && skips == [] && q.code != 0 { return Pass; }
      return Failed;
    }
    if failures != [] { return Failed; }
    if exists id :: id in q.collected && id !in reported { return Incomplete; }
    if exists r :: r in out.tests && r.derived.result !in {OkResult, SkippedResult} { return Incomplete; }
    if q.code != 0 || out.summary.verdict != Some(true) { return Incomplete; }
    return Pass;
  }

  lemma {:induction false} IdsAppend(rs: seq<Record>, r: Record)
    ensures Ids(rs + [r]) == Ids(rs) + [r.id]
  {
  }

  // ---------------------------------------------------------------- what PASS means

  /** A log in which everything passed, in the log's own terms: no failure block of any kind, every
      collected test reported and green, every skip permitted, and the runner's summary and exit agree. */
  ghost predicate CleanRun(lines: seq<StatusLine>, heads: seq<Head>, s: Summary, q: Question) {
    && heads == []
    && (forall id | id in Order(lines) :: Green(Mains(EventsOf(lines, id)), Subs(EventsOf(lines, id)), []))
    && multiset(Order(lines)) == multiset(q.collected)
    && (forall id | id in Order(lines) && CountEvents(EventsOf(lines, id), IsSkip) > 0 :: Permitted(q, id))
    && s == Summary(Some(|Order(lines)|), Some(true), 0, 0, CountLines(lines, IsSkip), 0, 0, true, Some(0))
    && q.code == 0
    && (q.fullSuite ==> forall e | e in q.permitted :: exists id :: id in q.collected && Canonical(id) == e.id)
  }

  ghost predicate RealHeads(heads: seq<Head>) { forall h | h in heads :: LogHead(h) }

  lemma RecordGreen(id: string, ev: seq<Event>, bs: seq<Block>)
    requires LogBlocks(bs)
    ensures var r := RecordOf(id, ev, bs);
            r.derived.problem == None && !Failing(r) && r.derived.result in {OkResult, SkippedResult}
            <==> Green(Mains(ev), Subs(ev), bs)
  {
    hide Accounting; hide ResultFromBlocks;
    GreenIff(Mains(ev), Subs(ev), bs);
    var sub := OfPhase(bs, Subtest);
    assert |OfKind(sub, Fail)| + |OfKind(sub, Error)| == 0 <==> sub == [] by { SubKinds(bs); }
  }

  lemma SubKinds(bs: seq<Block>)
    requires LogBlocks(bs)
    ensures var sub := OfPhase(bs, Subtest); |OfKind(sub, Fail)| + |OfKind(sub, Error)| == 0 <==> sub == []
  {
    var sub := OfPhase(bs, Subtest);
    if sub != [] {
      assert sub[0] in sub && sub[0] in bs && LogBlock(sub[0]);
      assert sub[0] in OfKind(sub, sub[0].kind);
    }
  }

  lemma {:induction false} NoHeads(heads: seq<Head>)
    requires UnmatchedCount(heads) == 0 && forall h | h in heads && h.Head? :: BlocksOf(heads, h.id) == []
    ensures heads == []
  {
    LastHead(heads);
  }

  lemma LastHead(heads: seq<Head>)
    ensures heads != [] ==> heads[|heads| - 1] in heads
  {
  }

  lemma {:induction false} GreenLines(lines: seq<StatusLine>, p: Event -> bool)
    requires forall id | id in Order(lines) :: Green(Mains(EventsOf(lines, id)), Subs(EventsOf(lines, id)), [])
    requires p == IsMainXf || p == IsMainUs
    ensures CountLines(lines, p) == 0
  {
    var ids := Order(lines);
    OrderDistinct(lines);
    EventsAddUp(lines, ids, p);
    forall id | id in ids ensures CountEvents(EventsOf(lines, id), p) == 0 {
      QuietEvents(EventsOf(lines, id), p);
    }
    TotalSame(ids, (id: string) => CountEvents(EventsOf(lines, id), p), (id: string) => 0);
    TotalZero(ids);
  }

  lemma {:induction false} QuietEvents(ev: seq<Event>, p: Event -> bool)
    requires ExpectedFailure !in Mains(ev) && UnexpectedSuccess !in Mains(ev) && (p == IsMainXf || p == IsMainUs)
    ensures CountEvents(ev, p) == 0
  {
    if ev != [] {
      var n := |ev| - 1;
      QuietEvents(ev[..n], p);
      if !ev[n].sub { assert ev[n].status in Mains(ev); }
    }
  }

  /** PASS is sound and complete: an ordinary PASS on a parsed log with collected identities is given exactly
      for a clean run. */
  lemma PassIffClean(lines: seq<StatusLine>, heads: seq<Head>, s: Summary, q: Question)
    requires RealHeads(heads) && !q.expectFail
    ensures ClassifyOf(ParsedOf(lines, heads, s, Some(q.collected)), q) == Pass <==> CleanRun(lines, heads, s, q)
  {
    if ClassifyOf(ParsedOf(lines, heads, s, Some(q.collected)), q) == Pass { PassIsClean(lines, heads, s, q); }
    if CleanRun(lines, heads, s, q) { CleanPasses(lines, heads, s, q); }
  }

  lemma PassIsClean(lines: seq<StatusLine>, heads: seq<Head>, s: Summary, q: Question)
    requires RealHeads(heads) && !q.expectFail
    requires ClassifyOf(ParsedOf(lines, heads, s, Some(q.collected)), q) == Pass
    ensures CleanRun(lines, heads, s, q)
  {
    hide RecordOf; hide EventsOf; hide BlocksOf; hide Order; hide Accounting; hide CountEvents; hide UnmatchedCount;
    hide CountHeads; hide CountLines;
    var out := ParsedOf(lines, heads, s, Some(q.collected));
    var ids := Order(lines);
    assert Filter(out.tests, Failing) == [];
    EmptyFilter(out.tests, Failing);
    assert Reconciled(out);
    forall k | 0 <= k < |ids|
      ensures Green(Mains(EventsOf(lines, ids[k])), Subs(EventsOf(lines, ids[k])), BlocksOf(heads, ids[k]))
      ensures CountEvents(EventsOf(lines, ids[k]), IsSkip) > 0 ==> Permitted(q, ids[k])
    {
      var r := out.tests[k];
      assert r in out.tests;
      BlocksAreLogBlocks(heads, ids[k]);
      RecordGreen(ids[k], EventsOf(lines, ids[k]), BlocksOf(heads, ids[k]));
      RecordFields(ids[k], EventsOf(lines, ids[k]), BlocksOf(heads, ids[k]));
      assert Skips(r) ==> r in Filter(out.tests, Skips);
    }
    forall h | h in heads && h.Head? ensures BlocksOf(heads, h.id) == [] {
      assert h.id in Blamed(heads) && h.id in ids;
    }
    NoHeads(heads);
    NoneCounted();
    GreenLines(lines, IsMainXf);
    GreenLines(lines, IsMainUs);
  }

  lemma NoneCounted()
    ensures CountHeads([], IsError) == 0 && CountHeads([], IsFail) == 0 && UnmatchedCount([]) == 0
    ensures forall id :: BlocksOf([], id) == []
  {
  }

  lemma RecordFields(id: string, ev: seq<Event>, bs: seq<Block>)
    ensures RecordOf(id, ev, bs).skips == CountEvents(ev, IsSkip) && RecordOf(id, ev, bs).id == id
    ensures RecordOf(id, ev, bs).events == ev
  {
  }

  lemma CleanPasses(lines: seq<StatusLine>, heads: seq<Head>, s: Summary, q: Question)
    requires !q.expectFail && CleanRun(lines, heads, s, q)
    ensures ClassifyOf(ParsedOf(lines, heads, s, Some(q.collected)), q) == Pass
  {
    hide RecordOf; hide EventsOf; hide BlocksOf; hide Order; hide Accounting; hide CountEvents; hide UnmatchedCount;
    hide CountHeads; hide CountLines;
    hide Filter; hide Ids; hide Failing; hide Reported; hide Permitted; hide Green; hide Policy;
    var out := ParsedOf(lines, heads, s, Some(q.collected));
    var ids := Order(lines);
    NoneCounted();
    GreenLines(lines, IsMainXf);
    GreenLines(lines, IsMainUs);
    forall r | r in out.tests
      ensures r.derived.problem == None && !Failing(r) && r.derived.result in {OkResult, SkippedResult}
      ensures Reported(r) && (Skips(r) ==> Permitted(q, r.id))
    {
      var k :| 0 <= k < |ids| && out.tests[k] == r;
      CleanRecord(ids[k], EventsOf(lines, ids[k]));
      RecordFields(ids[k], EventsOf(lines, ids[k]), []);
      assert ids[k] in ids;
    }
    assert Reconciled(out);
    EmptyFilter(out.tests, Failing);
    forall id | id in q.collected ensures id in Ids(Filter(out.tests, Reported)) {
      assert id in multiset(q.collected) && id in multiset(ids);
      var k :| 0 <= k < |ids| && ids[k] == id;
      RecordFields(id, EventsOf(lines, id), BlocksOf(heads, id));
      assert out.tests[k] in out.tests;
      IdKept(out.tests, out.tests[k]);
    }
  }

  lemma CleanRecord(id: string, ev: seq<Event>)
    requires Green(Mains(ev), Subs(ev), [])
    ensures var r := RecordOf(id, ev, []);
            r.derived.problem == None && !Failing(r) && r.derived.result in {OkResult, SkippedResult} && Reported(r)
  {
    hide Accounting; hide ResultFromBlocks; hide Failing;
    RecordGreen(id, ev, []);
    assert ev != [];
  }

  lemma IdKept(tests: seq<Record>, r: Record)
    requires r in tests && Reported(r)
    ensures r.id in Ids(Filter(tests, Reported))
  {
    var kept := Filter(tests, Reported);
    assert r in kept;
    var j :| 0 <= j < |kept| && kept[j] == r;
    assert Ids(kept)[j] == r.id;
  }

  /** A PASS of a run that was meant to fail, without fail-fast: every collected target was reported, its body
      failed by assertion, and there is no ERROR entry and no skip anywhere in the log. */
  lemma ExpectedFailurePass(lines: seq<StatusLine>, heads: seq<Head>, s: Summary, q: Question)
    requires RealHeads(heads) && q.expectFail && !q.failFast
    requires ClassifyOf(ParsedOf(lines, heads, s, Some(q.collected)), q) == Pass
    ensures q.code != 0 && q.collected != [] && multiset(Order(lines)) == multiset(q.collected)
    ensures forall id | id in q.collected :: exists b :: b in BlocksOf(heads, id) && b == Block(Fail, Body, b.params)
    ensures forall h | h in heads :: h.Head? && h.kind != Error && h.id in q.collected
    ensures forall id | id in q.collected :: CountEvents(EventsOf(lines, id), IsSkip) == 0
  {
    hide RecordOf; hide EventsOf; hide BlocksOf; hide Order; hide Accounting; hide CountEvents; hide UnmatchedCount;
    hide CountHeads; hide CountLines;
    hide Filter; hide Ids; hide Failing; hide Reported; hide Permitted; hide Policy;
    var out := ParsedOf(lines, heads, s, Some(q.collected));
    var ids := Order(lines);
    EmptyFilter(out.tests, Skips);
    forall id | id in q.collected
      ensures exists b :: b in BlocksOf(heads, id) && b == Block(Fail, Body, b.params)
      ensures CountEvents(EventsOf(lines, id), IsSkip) == 0
    {
      assert id in multiset(q.collected) && id in multiset(ids);
      var k :| 0 <= k < |ids| && ids[k] == id;
      assert out.tests[k] in out.tests;
      RecordFields(id, EventsOf(lines, id), BlocksOf(heads, id));
      FailedBody(lines, heads, id);
    }
    assert ids[0] in multiset(ids) && ids[0] in multiset(q.collected) && ids[0] in q.collected;
    forall h | h in heads ensures h.Head? && h.kind != Error && h.id in q.collected {
      HeadsAre(heads, h);
      assert h.id in Blamed(heads) && h.id in ids && h.id in multiset(ids);
    }
  }

  lemma FailedBody(lines: seq<StatusLine>, heads: seq<Head>, id: string)
    requires RecordOf(id, EventsOf(lines, id), BlocksOf(heads, id)).derived.result == BodyResult(Fail)
    ensures exists b :: b in BlocksOf(heads, id) && b == Block(Fail, Body, b.params)
  {
    hide EventsOf; hide BlocksOf; hide Accounting;
    var bodies := OfPhase(BlocksOf(heads, id), Body);
    assert bodies[0] in bodies && bodies[0] in BlocksOf(heads, id);
  }

  lemma {:induction false} HeadsAre(heads: seq<Head>, h: Head)
    requires h in heads && UnmatchedCount(heads) == 0 && CountHeads(heads, IsError) == 0
    ensures h.Head? && h.kind != Error
  {
    var n := |heads| - 1;
    if heads[n] != h {
      assert heads == heads[..n] + [heads[n]];
      HeadsAre(heads[..n], h);
    }
  }
}
