/** The terminal outcome of one test: its status events against its failure blocks. */
module VerdictOutcome {
  import opened Prelude

  datatype Status = Okay | Error | Fail | Skipped | ExpectedFailure | UnexpectedSuccess | Unrecognised(text: string)

  datatype Phase = Body | Subtest | Setup | Teardown | Unclassified | Unexpected

  /** A sub-test event: its status and the sub-test's parameters. */
  datatype SubEvent = SubEvent(status: Status, params: string)

  datatype Block = Block(kind: Status, phase: Phase, params: string)

  predicate IsFailure(s: Status) { s in {Fail, Error} }

  predicate IsNonFailure(s: Status) { s in {Okay, Skipped, ExpectedFailure, UnexpectedSuccess} }

  predicate Recognised(s: Status) { !s.Unrecognised? }

  predicate FailingSub(e: SubEvent) { IsFailure(e.status) }

  predicate OddSub(e: SubEvent) { e.status in {Okay, ExpectedFailure, UnexpectedSuccess} }

  predicate SubBlock(b: Block) { b.phase == Subtest }

  predicate MainBlock(b: Block) { b.phase !in {Subtest, Unexpected} }

  predicate OutsideTeardown(b: Block) { MainBlock(b) && b.phase != Teardown }

  function AsEvent(b: Block): SubEvent { SubEvent(b.kind, b.params) }

  function AsEvents(bs: seq<Block>): (r: seq<SubEvent>)
    ensures |r| == |bs| && forall i | 0 <= i < |bs| :: r[i] == AsEvent(bs[i])
  {
    if bs == [] then [] else [AsEvent(bs[0])] + AsEvents(bs[1..])
  }

  function OfPhase(bs: seq<Block>, p: Phase): seq<Block> { Filter(bs, (b: Block) => b.phase == p) }

  function OfKind(bs: seq<Block>, k: Status): seq<Block> { Filter(bs, (b: Block) => b.kind == k) }

  datatype Problem =
    | UnknownStatus | NoOutcome | NotASubtestOutcome | SubtestMismatch | UnexpectedMismatch
    | MainMismatch(kind: Status) | SeveralOutsideTeardown | StatusOrder | SubtestContradiction | BlockContradiction

  /** `_accounting`; None means lawful. */
  function Accounting(mains: seq<Status>, subs: seq<SubEvent>, blocks: seq<Block>): Option<Problem> {
    var main := Filter(blocks, MainBlock);
    var outside := Filter(main, OutsideTeardown);
    var failing := Filter(subs, FailingSub);
    var quiet := Filter(mains, IsNonFailure);
    if (exists m :: m in mains && !Recognised(m)) || (exists e :: e in subs && !Recognised(e.status)) then Some(UnknownStatus)
    else if mains == [] && subs == [] then Some(NoOutcome)
    else if exists e :: e in subs && OddSub(e) then Some(NotASubtestOutcome)
    else if multiset(failing) != multiset(AsEvents(Filter(blocks, SubBlock))) then Some(SubtestMismatch)
    else if |OfPhase(blocks, Unexpected)| != multiset(mains)[UnexpectedSuccess] then Some(UnexpectedMismatch)
    else if multiset(mains)[Fail] != |OfKind(main, Fail)| then Some(MainMismatch(Fail))
    else if multiset(mains)[Error] != |OfKind(main, Error)| then Some(MainMismatch(Error))
    else if |outside| > 1 then Some(SeveralOutsideTeardown)
    else if quiet != [] && (|quiet| > 1 || !IsNonFailure(mains[0])) then Some(StatusOrder)
    else if quiet != [] && failing != [] then Some(SubtestContradiction)
    else if quiet != [] && outside != [] then Some(BlockContradiction)
    else None
  }

  datatype Label =
    | NotReached | BodyResult(kind: Status) | UnclassifiedResult | SkippedResult | SubtestFailures | OkResult | NoBodyStatus

  predicate SkippedSub(e: SubEvent) { e.status == Skipped }

  /** `_result_from_blocks`. */
  function ResultFromBlocks(mains: seq<Status>, subs: seq<SubEvent>, blocks: seq<Block>): Label {
    if OfPhase(blocks, Setup) != [] then NotReached
    else if OfPhase(blocks, Body) != [] then BodyResult(OfPhase(blocks, Body)[0].kind)
    else if OfPhase(blocks, Unclassified) != [] then UnclassifiedResult
    else if Skipped in mains || (mains == [] && subs != [] && forall e | e in subs :: SkippedSub(e)) then SkippedResult
    else if OfPhase(blocks, Subtest) != [] then SubtestFailures
    else if Okay in mains then OkResult
    else NoBodyStatus
  }

  datatype Derived = Derived(problem: Option<Problem>, result: Label)

  function Derive(mains: seq<Status>, subs: seq<SubEvent>, blocks: seq<Block>): Derived {
    Derived(Accounting(mains, subs, blocks), ResultFromBlocks(mains, subs, blocks))
  }

  /** The blocks a log can contain: FAIL, ERROR or UNEXPECTED SUCCESS, the last exactly in its own phase. */
  predicate LogBlock(b: Block) {
    b.kind in {Fail, Error, UnexpectedSuccess} && (b.kind == UnexpectedSuccess <==> b.phase == Unexpected)
  }

  ghost predicate LogBlocks(blocks: seq<Block>) { forall b | b in blocks :: LogBlock(b) }

  // ---------------------------------------------------------------- counting

  function CountSubs(subs: seq<SubEvent>, k: Status): nat { |Filter(subs, (e: SubEvent) => e.status == k)| }

  lemma {:induction false} MultisetOfFilter<T(!new)>(s: seq<T>, p: T -> bool, x: T)
    ensures multiset(Filter(s, p))[x] == if p(x) then multiset(s)[x] else 0
  {
    if s != [] {
      MultisetOfFilter(s[1..], p, x);
      assert s == [s[0]] + s[1..];
    }
  }

  /** Lists with the same elements hold as many of each kind. */
  lemma {:induction false} SameCounts(a: seq<SubEvent>, b: seq<SubEvent>, k: Status)
    requires multiset(a) == multiset(b)
    ensures CountSubs(a, k) == CountSubs(b, k)
  {
    var p := (e: SubEvent) => e.status == k;
    forall x ensures multiset(Filter(a, p))[x] == multiset(Filter(b, p))[x] {
      MultisetOfFilter(a, p, x);
      MultisetOfFilter(b, p, x);
    }
    assert multiset(Filter(a, p)) == multiset(Filter(b, p));
    assert |multiset(Filter(a, p))| == |multiset(Filter(b, p))|;
  }

  lemma {:induction false} FailingKeepsFailures(subs: seq<SubEvent>, k: Status)
    requires IsFailure(k)
    ensures CountSubs(Filter(subs, FailingSub), k) == CountSubs(subs, k)
  {
    if subs != [] { FailingKeepsFailures(subs[1..], k); }
  }

  lemma {:induction false} EventsOfBlocks(bs: seq<Block>, k: Status)
    ensures CountSubs(AsEvents(bs), k) == |OfKind(bs, k)|
  {
    if bs != [] {
      EventsOfBlocks(bs[1..], k);
      assert AsEvents(bs)[1..] == AsEvents(bs[1..]);
    }
  }

  lemma {:induction false} BlocksSplit(blocks: seq<Block>, k: Status)
    requires LogBlocks(blocks) && IsFailure(k)
    ensures |OfKind(blocks, k)| == |OfKind(Filter(blocks, MainBlock), k)| + |OfKind(Filter(blocks, SubBlock), k)|
  {
    if blocks != [] {
      assert blocks[0] in blocks;
      BlocksSplit(blocks[1..], k);
    }
  }

  /** Conservation for one test: as many FAIL events as FAIL blocks, and as many ERROR events as ERROR blocks. */
  lemma EventsMatchBlocks(mains: seq<Status>, subs: seq<SubEvent>, blocks: seq<Block>, k: Status)
    requires LogBlocks(blocks) && IsFailure(k) && Accounting(mains, subs, blocks) == None
    ensures multiset(mains)[k] + CountSubs(subs, k) == |OfKind(blocks, k)|
  {
    var subBlocks := Filter(blocks, SubBlock);
    BlocksSplit(blocks, k);
    SameCounts(Filter(subs, FailingSub), AsEvents(subBlocks), k);
    FailingKeepsFailures(subs, k);
    EventsOfBlocks(subBlocks, k);
  }

  // ---------------------------------------------------------------- what the labels mean

  /** `_accounting` succeeds exactly when none of its refusals applies. */
  lemma LawfulParts(mains: seq<Status>, subs: seq<SubEvent>, blocks: seq<Block>)
    requires Accounting(mains, subs, blocks) == None
    ensures (forall m | m in mains :: Recognised(m)) && forall e | e in subs :: Recognised(e.status) && !OddSub(e)
    ensures mains != [] || subs != []
    ensures multiset(Filter(subs, FailingSub)) == multiset(AsEvents(Filter(blocks, SubBlock)))
    ensures |OfPhase(blocks, Unexpected)| == multiset(mains)[UnexpectedSuccess]
    ensures multiset(mains)[Fail] == |OfKind(Filter(blocks, MainBlock), Fail)|
    ensures multiset(mains)[Error] == |OfKind(Filter(blocks, MainBlock), Error)|
    ensures Filter(mains, IsNonFailure) != [] ==>
              |Filter(mains, IsNonFailure)| == 1 && mains != [] && IsNonFailure(mains[0])
              && Filter(subs, FailingSub) == [] && Filter(Filter(blocks, MainBlock), OutsideTeardown) == []
  {
    if Filter(mains, IsNonFailure) != [] { assert Filter(mains, IsNonFailure)[0] in mains; }
  }

  /** One test's events and blocks, said without filters and counts of filters: every status is known; sub-tests
      only fail, err or are skipped, and each failing one has its own block; failing main statuses have their
      blocks; at most one block stands outside teardown and sub-tests; and a status that is not a failure comes
      first, alone, with no failure besides but in teardown. */
  ghost predicate Lawful(mains: seq<Status>, subs: seq<SubEvent>, blocks: seq<Block>) {
    && (mains != [] || subs != [])
    && (forall m | m in mains :: Recognised(m))
    && (forall e | e in subs :: e.status in {Fail, Error, Skipped})
    && (forall e: SubEvent :: FailingSub(e) ==> multiset(subs)[e] == multiset(AsEvents(Filter(blocks, SubBlock)))[e])
    && (forall b | b in blocks && b.phase == Subtest :: IsFailure(b.kind))
    && multiset(mains)[UnexpectedSuccess] == |OfPhase(blocks, Unexpected)|
    && (forall k | k in {Fail, Error} :: multiset(mains)[k] == |OfKind(Filter(blocks, MainBlock), k)|)
    && (forall i, j | 0 <= i < |blocks| && 0 <= j < |blocks| && OutsideTeardown(blocks[i]) && OutsideTeardown(blocks[j]) :: i == j)
    && (forall i | 0 <= i < |mains| && IsNonFailure(mains[i]) ::
          i == 0 && (forall e | e in subs :: !FailingSub(e)) && forall b | b in blocks :: !OutsideTeardown(b))
  }

  lemma {:induction false} EmptyFilter<T(!new)>(s: seq<T>, p: T -> bool)
    ensures Filter(s, p) == [] <==> forall x | x in s :: !p(x)
  {
    if s != [] { EmptyFilter(s[1..], p); }
  }

  lemma {:induction false} AtMostOneKept<T(!new)>(s: seq<T>, p: T -> bool)
    ensures |Filter(s, p)| <= 1 <==> forall i, j | 0 <= i < |s| && 0 <= j < |s| && p(s[i]) && p(s[j]) :: i == j
  {
    if s != [] {
      var rest := s[1..];
      AtMostOneKept(rest, p);
      KeptSomewhere(rest, p);
      assert forall i | 0 < i < |s| :: s[i] == rest[i - 1];
      assert forall i | 0 <= i < |rest| :: rest[i] == s[i + 1];
    }
  }

  lemma KeptSomewhere<T(!new)>(s: seq<T>, p: T -> bool)
    ensures Filter(s, p) != [] <==> exists i :: 0 <= i < |s| && p(s[i])
  {
    EmptyFilter(s, p);
    if i :| 0 <= i < |s| && p(s[i]) { assert s[i] in s; }
  }

  lemma {:induction false} FilterTwice<T(!new)>(s: seq<T>, p: T -> bool, q: T -> bool)
    requires forall x | q(x) :: p(x)
    ensures Filter(Filter(s, p), q) == Filter(s, q)
  {
    if s != [] { FilterTwice(s[1..], p, q); }
  }

  /** The quiet part of the accounting, by positions. */
  lemma QuietByPosition(mains: seq<Status>)
    ensures (Filter(mains, IsNonFailure) != [] ==> |Filter(mains, IsNonFailure)| <= 1 && IsNonFailure(mains[0]))
            <==> forall i | 0 <= i < |mains| && IsNonFailure(mains[i]) :: i == 0
  {
    AtMostOneKept(mains, IsNonFailure);
    EmptyFilter(mains, IsNonFailure);
    var quiet := Filter(mains, IsNonFailure);
    if quiet != [] {
      assert quiet[0] in mains;
      var k :| 0 <= k < |mains| && mains[k] == quiet[0];
      assert IsNonFailure(mains[k]);
    }
    forall i | 0 <= i < |mains| && IsNonFailure(mains[i]) ensures quiet != [] { assert mains[i] in mains; }
  }

  /** The matching of failing sub-tests with sub-test blocks, one by one. */
  lemma SubtestsMatch(subs: seq<SubEvent>, blocks: seq<Block>)
    requires forall b | b in blocks && b.phase == Subtest :: IsFailure(b.kind)
    ensures multiset(Filter(subs, FailingSub)) == multiset(AsEvents(Filter(blocks, SubBlock)))
            <==> forall e: SubEvent :: FailingSub(e) ==> multiset(subs)[e] == multiset(AsEvents(Filter(blocks, SubBlock)))[e]
  {
    var left, right := multiset(Filter(subs, FailingSub)), multiset(AsEvents(Filter(blocks, SubBlock)));
    forall e: SubEvent ensures left[e] == if FailingSub(e) then multiset(subs)[e] else 0 { MultisetOfFilter(subs, FailingSub, e); }
    forall e: SubEvent | !FailingSub(e) ensures right[e] == 0 { OnlyFailingBlocks(blocks, e); }
    if forall e: SubEvent :: FailingSub(e) ==> multiset(subs)[e] == right[e] {
      assert forall e :: left[e] == right[e];
      assert left == right;
    }
  }

  lemma OnlyFailingBlocks(blocks: seq<Block>, e: SubEvent)
    requires (forall b | b in blocks && b.phase == Subtest :: IsFailure(b.kind)) && !FailingSub(e)
    ensures multiset(AsEvents(Filter(blocks, SubBlock)))[e] == 0
  {
    var kept := Filter(blocks, SubBlock);
    forall i | 0 <= i < |kept| ensures AsEvents(kept)[i] != e { assert kept[i] in kept; }
  }

  /** `_accounting` accepts exactly the lawful tests. (A sub-test block of a log is never an unexpected success.) */
  lemma LawfulIff(mains: seq<Status>, subs: seq<SubEvent>, blocks: seq<Block>)
    requires LogBlocks(blocks)
    ensures Accounting(mains, subs, blocks) == None <==> Lawful(mains, subs, blocks)
  {
    hide Filter; hide AsEvents;
    assert forall b | b in blocks && b.phase == Subtest :: LogBlock(b);
    QuietByPosition(mains);
    SubtestsMatch(subs, blocks);
    FilterTwice(blocks, MainBlock, OutsideTeardown);
    AtMostOneKept(blocks, OutsideTeardown);
    EmptyFilter(blocks, OutsideTeardown);
    EmptyFilter(subs, FailingSub);
    EmptyFilter(mains, IsNonFailure);
    assert (exists e :: e in subs && (!Recognised(e.status) || OddSub(e))) <==> exists e :: e in subs && e.status !in {Fail, Error, Skipped};
    assert Filter(mains, IsNonFailure) != [] <==> exists i :: 0 <= i < |mains| && IsNonFailure(mains[i]);
  }

  /** With at most one non-failure status, all of them are that one. */
  lemma OnlyQuiet(mains: seq<Status>, m: Status)
    requires |Filter(mains, IsNonFailure)| <= 1 && m in mains && IsNonFailure(m)
    ensures forall x | x in mains && IsNonFailure(x) :: x == m
  {
    var quiet := Filter(mains, IsNonFailure);
    assert m in quiet;
    forall x | x in mains && IsNonFailure(x) ensures x == m { assert x in quiet; }
  }

  lemma {:induction false} OneQuietStatus(mains: seq<Status>)
    requires |Filter(mains, IsNonFailure)| <= 1 && mains != [] && IsNonFailure(mains[0])
    ensures forall i | 0 < i < |mains| :: !IsNonFailure(mains[i])
  {
    EmptyFilter(mains[1..], IsNonFailure);
    forall i | 0 < i < |mains| ensures !IsNonFailure(mains[i]) {
      assert mains[i] == mains[1..][i - 1];
    }
  }

  /** What a lawful test with a non-failure status cannot have besides it. */
  lemma QuietExcludes(mains: seq<Status>, subs: seq<SubEvent>, blocks: seq<Block>)
    requires Accounting(mains, subs, blocks) == None && Filter(mains, IsNonFailure) != []
    ensures mains != [] && IsNonFailure(mains[0]) && forall i | 0 < i < |mains| :: IsFailure(mains[i])
    ensures forall b | b in blocks :: b.phase in {Teardown, Subtest, Unexpected}
    ensures forall e | e in subs :: e.status == Skipped
  {
    hide Accounting; hide Filter;
    LawfulParts(mains, subs, blocks);
    OneQuietStatus(mains);
    forall i | 0 < i < |mains| ensures IsFailure(mains[i]) { assert mains[i] in mains && Recognised(mains[i]); }
    forall b | b in blocks ensures b.phase in {Teardown, Subtest, Unexpected} {
      assert OutsideTeardown(b) ==> b in Filter(Filter(blocks, MainBlock), OutsideTeardown);
    }
    forall e | e in subs ensures e.status == Skipped {
      assert FailingSub(e) ==> e in Filter(subs, FailingSub);
    }
  }

  /** A lawful `ok` is exactly one `ok` main event, in first position, with only teardown blocks besides. */
  lemma OkMeans(mains: seq<Status>, subs: seq<SubEvent>, blocks: seq<Block>)
    requires Derive(mains, subs, blocks) == Derived(None, OkResult)
    ensures mains != [] && mains[0] == Okay && forall i | 0 < i < |mains| :: IsFailure(mains[i])
    ensures forall b | b in blocks :: b.phase == Teardown
    ensures forall e | e in subs :: e.status == Skipped
  {
    hide Accounting; hide Filter;
    LawfulParts(mains, subs, blocks);
    assert Okay in Filter(mains, IsNonFailure);
    QuietExcludes(mains, subs, blocks);
    OnlyQuiet(mains, Okay);
    assert multiset(mains)[UnexpectedSuccess] == 0;
    EmptyPhase(blocks, Unexpected);
    EmptyPhase(blocks, Subtest);
  }

  lemma EmptyPhase(blocks: seq<Block>, p: Phase)
    requires OfPhase(blocks, p) == []
    ensures forall b | b in blocks :: b.phase != p
  {
    EmptyFilter(blocks, (b: Block) => b.phase == p);
  }

  predicate HasPhase(blocks: seq<Block>, p: Phase) { exists b :: b in blocks && b.phase == p }

  lemma PhaseIff(blocks: seq<Block>, p: Phase)
    ensures OfPhase(blocks, p) != [] <==> HasPhase(blocks, p)
    ensures OfPhase(blocks, p) != [] ==> OfPhase(blocks, p)[0] in blocks && OfPhase(blocks, p)[0].phase == p
  {
    var kept := OfPhase(blocks, p);
    if kept != [] { assert kept[0] in kept; }
    if b :| b in blocks && b.phase == p { assert b in kept; }
  }

  /** What each label of a lawful test says. The conditions exclude each other, so the order in which the label is
      looked for does not matter. */
  lemma LabelIff(mains: seq<Status>, subs: seq<SubEvent>, blocks: seq<Block>)
    requires LogBlocks(blocks) && Lawful(mains, subs, blocks)
    ensures var l := ResultFromBlocks(mains, subs, blocks);
            && (l == NotReached <==> HasPhase(blocks, Setup))
            && (forall k :: l == BodyResult(k) <==> exists b :: b in blocks && b.phase == Body && b.kind == k)
            && (l == UnclassifiedResult <==> HasPhase(blocks, Unclassified))
            && (l == SubtestFailures <==> HasPhase(blocks, Subtest) && forall b | b in blocks :: !OutsideTeardown(b))
            && (l == SkippedResult <==> if mains == [] then forall e | e in subs :: e.status == Skipped else mains[0] == Skipped)
            && (l == OkResult <==> mains != [] && mains[0] == Okay)
  {
    hide OfPhase; hide Filter; hide Lawful;
    PhaseIff(blocks, Setup);
    PhaseIff(blocks, Body);
    PhaseIff(blocks, Unclassified);
    PhaseIff(blocks, Subtest);
    OneOutside(mains, subs, blocks);
    QuietStandsAlone(mains, subs, blocks);
  }

  /** All blocks outside teardown and sub-tests are one and the same. */
  lemma OneOutside(mains: seq<Status>, subs: seq<SubEvent>, blocks: seq<Block>)
    requires Lawful(mains, subs, blocks)
    ensures forall b, c | b in blocks && c in blocks && OutsideTeardown(b) && OutsideTeardown(c) :: b == c
  {
    forall b, c | b in blocks && c in blocks && OutsideTeardown(b) && OutsideTeardown(c) ensures b == c {
      var i :| 0 <= i < |blocks| && blocks[i] == b;
      var j :| 0 <= j < |blocks| && blocks[j] == c;
    }
  }

  /** A status that is not a failure, or nothing but skipped sub-tests, leaves no room for a failing sub-test or a block
      outside teardown. */
  lemma QuietStandsAlone(mains: seq<Status>, subs: seq<SubEvent>, blocks: seq<Block>)
    requires LogBlocks(blocks) && Lawful(mains, subs, blocks)
    ensures forall m | m in mains && IsNonFailure(m) :: mains[0] == m
    ensures (exists m :: m in mains && IsNonFailure(m)) || (mains == [] && forall e | e in subs :: e.status == Skipped) ==>
              !HasPhase(blocks, Subtest) && forall b | b in blocks :: !OutsideTeardown(b)
    ensures HasPhase(blocks, Subtest) ==> exists e :: e in subs && FailingSub(e)
    ensures if mains == [] then subs != [] else mains[0] in mains
  {
    forall m | m in mains && IsNonFailure(m) ensures mains[0] == m {
      var i :| 0 <= i < |mains| && mains[i] == m;
    }
    if b :| b in blocks && b.phase == Subtest { SubtestHasEvent(subs, blocks, b); }
    if mains == [] {
      forall b | b in blocks && OutsideTeardown(b) ensures b.kind in mains { MainBlockHasEvent(mains, blocks, b); }
    }
  }

  lemma SubtestHasEvent(subs: seq<SubEvent>, blocks: seq<Block>, b: Block)
    requires b in blocks && b.phase == Subtest && IsFailure(b.kind)
    requires forall e: SubEvent :: FailingSub(e) ==> multiset(subs)[e] == multiset(AsEvents(Filter(blocks, SubBlock)))[e]
    ensures AsEvent(b) in subs && FailingSub(AsEvent(b))
  {
    var kept := Filter(blocks, SubBlock);
    assert b in kept;
    var k :| 0 <= k < |kept| && kept[k] == b;
    assert AsEvents(kept)[k] == AsEvent(b);
    assert AsEvent(b) in multiset(AsEvents(kept));
  }

  lemma MainBlockHasEvent(mains: seq<Status>, blocks: seq<Block>, b: Block)
    requires b in blocks && LogBlock(b) && OutsideTeardown(b)
    requires forall k | k in {Fail, Error} :: multiset(mains)[k] == |OfKind(Filter(blocks, MainBlock), k)|
    ensures b.kind in mains
  {
    assert b.kind in {Fail, Error} && b in Filter(blocks, MainBlock) && b in OfKind(Filter(blocks, MainBlock), b.kind);
  }

  /** How a test looks that may stand in a passing run: nothing failed anywhere, and it ended in one `ok`
      or was skipped (as a whole, or in all of its sub-tests). */
  predicate Green(mains: seq<Status>, subs: seq<SubEvent>, blocks: seq<Block>) {
    && blocks == [] && (forall e | e in subs :: SkippedSub(e))
    && (mains == [Okay] || mains == [Skipped] || (mains == [] && subs != []))
  }

  /** Nothing the classifier counts as a failure. */
  predicate Unblemished(blocks: seq<Block>) {
    OfPhase(blocks, Setup) == [] && OfPhase(blocks, Teardown) == [] && OfPhase(blocks, Subtest) == []
  }

  predicate Acceptable(mains: seq<Status>, subs: seq<SubEvent>, blocks: seq<Block>) {
    Accounting(mains, subs, blocks) == None && Unblemished(blocks)
    && ResultFromBlocks(mains, subs, blocks) in {OkResult, SkippedResult}
  }

  /** The lawful, unblemished tests labelled ok or skipped are exactly the green ones. */
  lemma GreenIff(mains: seq<Status>, subs: seq<SubEvent>, blocks: seq<Block>)
    ensures Acceptable(mains, subs, blocks) <==> Green(mains, subs, blocks)
  {
    if Green(mains, subs, blocks) { GreenIsAcceptable(mains, subs); }
    if Acceptable(mains, subs, blocks) { AcceptableIsGreen(mains, subs, blocks); }
  }

  lemma GreenIsAcceptable(mains: seq<Status>, subs: seq<SubEvent>)
    requires Green(mains, subs, [])
    ensures Acceptable(mains, subs, [])
  {
    EmptyFilter(subs, FailingSub);
    if mains != [] {
      assert mains == [mains[0]];
      assert multiset(mains) == multiset{mains[0]};
      assert Filter(mains[1..], IsNonFailure) == [];
    }
  }

  lemma AcceptableIsGreen(mains: seq<Status>, subs: seq<SubEvent>, blocks: seq<Block>)
    requires Acceptable(mains, subs, blocks)
    ensures Green(mains, subs, blocks)
  {
    hide Accounting; hide Filter; hide OfPhase;
    LawfulParts(mains, subs, blocks);
    if mains == [] {
      assert multiset(mains)[UnexpectedSuccess] == 0;
      NoBlocks(blocks);
    } else {
      var m := if Skipped in mains then Skipped else Okay;
      assert m in Filter(mains, IsNonFailure);
      QuietExcludes(mains, subs, blocks);
      OnlyQuiet(mains, m);
      assert multiset(mains)[UnexpectedSuccess] == 0;
      NoBlocks(blocks);
      NothingFailed(mains, subs);
      Second(mains);
    }
  }

  lemma NothingFailed(mains: seq<Status>, subs: seq<SubEvent>)
    requires Accounting(mains, subs, []) == None
    ensures multiset(mains)[Fail] == 0 && multiset(mains)[Error] == 0
  {
  }

  lemma Second<T>(s: seq<T>)
    ensures |s| > 1 ==> multiset(s)[s[1]] > 0
  {
    if |s| > 1 { assert s[1] in s; }
  }

  /** Empty in every phase is empty. */
  lemma NoBlocks(blocks: seq<Block>)
    requires OfPhase(blocks, Body) == OfPhase(blocks, Subtest) == OfPhase(blocks, Setup) == []
    requires OfPhase(blocks, Teardown) == OfPhase(blocks, Unclassified) == OfPhase(blocks, Unexpected) == []
    ensures blocks == []
  {
    EmptyPhase(blocks, Body); EmptyPhase(blocks, Subtest); EmptyPhase(blocks, Setup);
    EmptyPhase(blocks, Teardown); EmptyPhase(blocks, Unclassified); EmptyPhase(blocks, Unexpected);
    LeadingElement(blocks);
  }
}
