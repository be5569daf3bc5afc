/** From recognised log lines and failure heads to per-test records and the reconciliation of every total. */
module VerdictParse {
  import opened Prelude
  import opened VerdictOutcome

  // ---------------------------------------------------------------- joining description lines

  /** What line recognition says about a raw line: a test header alone, whether it contains " ...", and
      whether it begins with a test token. */
  datatype Line = Line(text: string, headerAlone: bool, dots: bool, testToken: bool)

  /** A line as it is, or a header joined to the description line that carries its status. */
  datatype Joined = Single(line: Line) | Pair(header: Line, description: Line)

  predicate Joins(a: Line, b: Line) { a.headerAlone && !a.dots && b.dots && !b.testToken }

  function Lines(j: Joined): seq<Line> {
    match j case Single(l) => [l] case Pair(h, d) => [h, d]
  }

  function Flat(js: seq<Joined>): seq<Line> {
    if js == [] then [] else Lines(js[0]) + Flat(js[1..])
  }

  lemma {:induction false} FlatAppend(js: seq<Joined>, j: Joined)
    ensures Flat(js + [j]) == Flat(js) + Lines(j)
  {
    if js == [] {
      assert js + [j] == [j];
      assert Flat([]) == [];
    } else {
      FlatAppend(js[1..], j);
      assert (js + [j])[1..] == js[1..] + [j];
    }
  }

  /** `join_description_lines`. Every line survives, in order; a pair is a header without a status and the
      description that follows it, never another test's status line; and no such pair is left apart. */
  method JoinDescriptionLines(lines: seq<Line>) returns (out: seq<Joined>)
    ensures Flat(out) == lines
    ensures forall k | 0 <= k < |out| && out[k].Pair? :: Joins(out[k].header, out[k].description)
    ensures forall k | 0 <= k < |out| - 1 && out[k].Single? :: !Joins(out[k].line, Lines(out[k + 1])[0])
  {
    out := [];
    var i := 0;
    while i < |lines|
      invariant 0 <= i <= |lines| && Flat(out) == lines[..i]
      invariant forall k | 0 <= k < |out| && out[k].Pair? :: Joins(out[k].header, out[k].description)
      invariant forall k | 0 <= k < |out| - 1 && out[k].Single? :: !Joins(out[k].line, Lines(out[k + 1])[0])
      invariant out != [] && out[|out| - 1].Single? && i < |lines| ==> !Joins(out[|out| - 1].line, lines[i])
    {
      var line := lines[i];
      if line.headerAlone && !line.dots && i + 1 < |lines| {
        var next := lines[i + 1];
        if next.dots && !next.testToken {
          FlatAppend(out, Pair(line, next));
          out := out + [Pair(line, next)];
          assert lines[..i + 2] == lines[..i] + [line, next];
          i := i + 2;
          continue;
        }
      }
      FlatAppend(out, Single(line));
      out := out + [Single(line)];
      i := i + 1;
    }
    assert lines[..i] == lines;
  }

  // ---------------------------------------------------------------- grouping

  /** A recognised status line: test id, sub-test parameters ("" for none), indentation, and its status if it has one. */
  datatype StatusLine = StatusLine(id: string, params: string, indented: bool, status: Option<Status>)

  datatype Event = Event(sub: bool, status: Status, params: string)

  /** A failure head and what its traceback mentions, or a head that was not recognised. */
  datatype Head =
    | Head(kind: Status, id: string, params: string, flush: bool, inTeardown: bool, inSetup: bool, inBody: bool)
    | Unmatched

  predicate LogHead(h: Head) { h.Head? ==> h.kind in {Fail, Error, UnexpectedSuccess} }

  function EventOf(l: StatusLine): Event
    requires l.status.Some?
  {
    Event(l.params != "" || l.indented, l.status.value, l.params)
  }

  function PhaseOf(h: Head): Phase
    requires h.Head?
  {
    if h.kind == UnexpectedSuccess then Unexpected
    else if h.params != "" then Subtest
    else if h.flush then Teardown
    else if h.inTeardown then Teardown
    else if h.inSetup then Setup
    else if h.inBody then Body
    else Unclassified
  }

  function BlockOf(h: Head): Block
    requires h.Head?
  {
    Block(h.kind, PhaseOf(h), h.params)
  }

  /** The test's events, in log order. */
  function EventsOf(lines: seq<StatusLine>, id: string): seq<Event> {
    if lines == [] then []
    else
      var n := |lines| - 1; var rest := EventsOf(lines[..n], id);
      if lines[n].id == id && lines[n].status.Some? then rest + [EventOf(lines[n])] else rest
  }

  /** The test ids, in order of first appearance. */
  function Order(lines: seq<StatusLine>): seq<string> {
    if lines == [] then []
    else
      var n := |lines| - 1; var rest := Order(lines[..n]);
      if lines[n].id in rest then rest else rest + [lines[n].id]
  }

  function BlocksOf(heads: seq<Head>, id: string): seq<Block> {
    if heads == [] then []
    else
      var n := |heads| - 1; var rest := BlocksOf(heads[..n], id);
      if heads[n].Head? && heads[n].id == id then rest + [BlockOf(heads[n])] else rest
  }

  /** The ids that have a block. */
  function Blamed(heads: seq<Head>): set<string> { set h | h in heads && h.Head? :: h.id }

  function UnmatchedCount(heads: seq<Head>): nat {
    if heads == [] then 0 else UnmatchedCount(heads[..|heads| - 1]) + if heads[|heads| - 1].Unmatched? then 1 else 0
  }

  /** The event-grouping loop of `parse`. */
  method GroupEvents(lines: seq<StatusLine>) returns (order: seq<string>, events: map<string, seq<Event>>)
    ensures order == Order(lines) && events.Keys == (set id | id in order)
    ensures forall id | id in order :: events[id] == EventsOf(lines, id)
  {
    order, events := [], map[];
    for i := 0 to |lines|
      invariant order == Order(lines[..i]) && events.Keys == (set id | id in order)
      invariant forall id | id in order :: events[id] == EventsOf(lines[..i], id)
      invariant forall id | id !in order :: EventsOf(lines[..i], id) == []
    {
      var l := lines[i];
      assert lines[..i + 1][..i] == lines[..i];
      if l.id !in events {
        events := events[l.id := []];
        order := order + [l.id];
      }
      if l.status.Some? {
        var sub := l.params != "" || l.indented;
        events := events[l.id := events[l.id] + [Event(sub, l.status.value, l.params)]];
      }
    }
    assert lines[..|lines|] == lines;
  }

  /** The block-grouping loop of `parse`; `keys` starts as the reported ids and grows by unreported ones. */
  method GroupBlocks(heads: seq<Head>, order: seq<string>)
    returns (keys: seq<string>, per: map<string, seq<Block>>, unmatched: nat)
    requires Distinct(order)
    ensures Distinct(keys) && per.Keys == (set id | id in keys)
    ensures (set id | id in keys) == (set id | id in order) + Blamed(heads)
    ensures forall id | id in keys :: per[id] == BlocksOf(heads, id)
    ensures unmatched == UnmatchedCount(heads)
  {
    keys := order;
    per := map id | id in order :: [];
    unmatched := 0;
    for i := 0 to |heads|
      invariant Distinct(keys) && per.Keys == (set id | id in keys)
      invariant (set id | id in keys) == (set id | id in order) + Blamed(heads[..i])
      invariant unmatched == UnmatchedCount(heads[..i])
      invariant forall id | id in keys :: per[id] == BlocksOf(heads[..i], id)
      invariant forall id | id !in keys :: BlocksOf(heads[..i], id) == []
    {
      var h := heads[i];
      assert heads[..i + 1][..i] == heads[..i];
      BlamedStep(heads, i);
      if h.Unmatched? {
        unmatched := unmatched + 1;
      } else {
        if h.id !in per {
          keys := keys + [h.id];
          per := per[h.id := []];
        }
        per := per[h.id := per[h.id] + [Block(h.kind, PhaseOf(h), h.params)]];
      }
    }
    assert heads[..|heads|] == heads;
  }

  lemma BlamedStep(heads: seq<Head>, i: nat)
    requires i < |heads|
    ensures Blamed(heads[..i + 1]) == Blamed(heads[..i]) + if heads[i].Head? then {heads[i].id} else {}
  {
    assert heads[..i + 1] == heads[..i] + [heads[i]];
  }

  // ---------------------------------------------------------------- totals

  function Total(ids: seq<string>, f: string -> nat): nat {
    if ids == [] then 0 else Total(ids[..|ids| - 1], f) + f(ids[|ids| - 1])
  }

  lemma {:induction false} TotalSame(ids: seq<string>, f: string -> nat, g: string -> nat)
    requires forall id | id in ids :: f(id) == g(id)
    ensures Total(ids, f) == Total(ids, g)
  {
    if ids != [] { TotalSame(ids[..|ids| - 1], f, g); }
  }

  /** Raising one summand of distinct keys raises the total by as much. */
  lemma {:induction false} TotalBump(ids: seq<string>, f: string -> nat, g: string -> nat, x: string, gain: nat)
    requires Distinct(ids) && x in ids && g(x) == f(x) + gain
    requires forall id | id in ids && id != x :: f(id) == g(id)
    ensures Total(ids, g) == Total(ids, f) + gain
  {
    var n := |ids| - 1;
    if ids[n] == x {
      TotalSame(ids[..n], f, g);
    } else {
      TotalBump(ids[..n], f, g, x, gain);
    }
  }

  function CountEvents(ev: seq<Event>, p: Event -> bool): nat {
    if ev == [] then 0 else CountEvents(ev[..|ev| - 1], p) + if p(ev[|ev| - 1]) then 1 else 0
  }

  /** How many status lines of the whole log carry an event of some sort. */
  function CountLines(lines: seq<StatusLine>, p: Event -> bool): nat {
    if lines == [] then 0
    else
      var l := lines[|lines| - 1];
      CountLines(lines[..|lines| - 1], p) + if l.status.Some? && p(EventOf(l)) then 1 else 0
  }

  lemma {:induction false} OrderDistinct(lines: seq<StatusLine>)
    ensures Distinct(Order(lines)) && forall l | l in lines :: l.id in Order(lines)
  {
    if lines != [] {
      var n := |lines| - 1;
      OrderDistinct(lines[..n]);
      assert lines == lines[..n] + [lines[n]];
    }
  }

  /** Per-test counts add up to the count over the log: grouping loses and invents no event. */
  lemma {:induction false} EventsAddUp(lines: seq<StatusLine>, ids: seq<string>, p: Event -> bool)
    requires Distinct(ids) && forall l | l in lines :: l.id in ids
    ensures Total(ids, (id: string) => CountEvents(EventsOf(lines, id), p)) == CountLines(lines, p)
  {
    if lines == [] {
      TotalSame(ids, (id: string) => CountEvents(EventsOf(lines, id), p), (id: string) => 0);
      TotalZero(ids);
    } else {
      var n := |lines| - 1;
      var l := lines[n];
      var f := (id: string) => CountEvents(EventsOf(lines[..n], id), p);
      var g := (id: string) => CountEvents(EventsOf(lines, id), p);
      assert lines == lines[..n] + [l];
      EventsAddUp(lines[..n], ids, p);
      if l.status.Some? {
        assert EventsOf(lines, l.id)[..|EventsOf(lines, l.id)| - 1] == EventsOf(lines[..n], l.id);
        TotalBump(ids, f, g, l.id, if p(EventOf(l)) then 1 else 0);
      } else {
        TotalSame(ids, f, g);
      }
    }
  }

  lemma {:induction false} TotalZero(ids: seq<string>)
    ensures Total(ids, (id: string) => 0) == 0
  {
    if ids != [] { TotalZero(ids[..|ids| - 1]); }
  }

  function CountBlocks(bs: seq<Block>, p: Block -> bool): nat {
    if bs == [] then 0 else CountBlocks(bs[..|bs| - 1], p) + if p(bs[|bs| - 1]) then 1 else 0
  }

  function CountHeads(heads: seq<Head>, p: Block -> bool): nat {
    if heads == [] then 0
    else
      var h := heads[|heads| - 1];
      CountHeads(heads[..|heads| - 1], p) + if h.Head? && p(BlockOf(h)) then 1 else 0
  }

  lemma {:induction false} BlocksAddUp(heads: seq<Head>, ids: seq<string>, p: Block -> bool)
    requires Distinct(ids) && forall h | h in heads && h.Head? :: h.id in ids
    ensures Total(ids, (id: string) => CountBlocks(BlocksOf(heads, id), p)) == CountHeads(heads, p)
  {
    if heads == [] {
      TotalSame(ids, (id: string) => CountBlocks(BlocksOf(heads, id), p), (id: string) => 0);
      TotalZero(ids);
    } else {
      var n := |heads| - 1;
      var h := heads[n];
      var f := (id: string) => CountBlocks(BlocksOf(heads[..n], id), p);
      var g := (id: string) => CountBlocks(BlocksOf(heads, id), p);
      assert heads == heads[..n] + [h];
      BlocksAddUp(heads[..n], ids, p);
      if h.Head? {
        assert BlocksOf(heads, h.id)[..|BlocksOf(heads, h.id)| - 1] == BlocksOf(heads[..n], h.id);
        TotalBump(ids, f, g, h.id, if p(BlockOf(h)) then 1 else 0);
      } else {
        TotalSame(ids, f, g);
      }
    }
  }

  // ---------------------------------------------------------------- records and reconciliation

  function Mains(ev: seq<Event>): seq<Status> {
    if ev == [] then []
    else
      var e := ev[|ev| - 1]; var rest := Mains(ev[..|ev| - 1]);
      if e.sub then rest else rest + [e.status]
  }

  function Subs(ev: seq<Event>): seq<SubEvent> {
    if ev == [] then []
    else
      var e := ev[|ev| - 1]; var rest := Subs(ev[..|ev| - 1]);
      if e.sub then rest + [SubEvent(e.status, e.params)] else rest
  }

  predicate IsSkip(e: Event) { e.status == Skipped }
  predicate IsMainXf(e: Event) { !e.sub && e.status == ExpectedFailure }
  predicate IsMainUs(e: Event) { !e.sub && e.status == UnexpectedSuccess }
  predicate IsError(b: Block) { b.kind == Error }
  predicate IsFail(b: Block) { b.kind == Fail }

  datatype Record = Record(id: string, derived: Derived, events: seq<Event>, setupErrors: nat, teardownErrors: nat,
                           subFailures: nat, subErrors: nat, skips: nat)

  function RecordOf(id: string, ev: seq<Event>, bs: seq<Block>): Record {
    Record(id, Derive(Mains(ev), Subs(ev), bs), ev, |OfPhase(bs, Setup)|, |OfPhase(bs, Teardown)|,
           |OfKind(OfPhase(bs, Subtest), Fail)|, |OfKind(OfPhase(bs, Subtest), Error)|, CountEvents(ev, IsSkip))
  }

  /** The runner's own summary: test count, verdict (true is OK), the named counts, and the exit status line. */
  datatype Summary = Summary(ran: Option<nat>, verdict: Option<bool>, failures: nat, errors: nat, skipped: nat,
                             expectedFailures: nat, unexpectedSuccesses: nat, countsRecognised: bool, exit: Option<int>)

  datatype Recon = Recon(verdictPresent: bool, ran: bool, errors: bool, failures: bool, skips: bool, expectedFailures: bool,
                         unexpectedSuccesses: bool, counts: bool, matched: bool, exit: bool, collected: bool, lawful: bool)

  predicate OnlyCollectedFails(r: Recon) { !r.collected && r.(collected := true) == ALL_RECONCILED }

  const ALL_RECONCILED := Recon(true, true, true, true, true, true, true, true, true, true, true, true)

  datatype Parsed = Parsed(tests: seq<Record>, recon: Recon, summary: Summary)

  predicate Reconciled(out: Parsed) { out.recon == ALL_RECONCILED }

  function Records(lines: seq<StatusLine>, heads: seq<Head>, ids: seq<string>): (r: seq<Record>)
    ensures |r| == |ids| && forall k | 0 <= k < |ids| :: r[k] == RecordOf(ids[k], EventsOf(lines, ids[k]), BlocksOf(heads, ids[k]))
  {
    if ids == [] then []
    else
      var n := |ids| - 1;
      Records(lines, heads, ids[..n]) + [RecordOf(ids[n], EventsOf(lines, ids[n]), BlocksOf(heads, ids[n]))]
  }

  /** Every total of `parse`, stated on the log itself. `collected` is absent when no identities were collected. */
  function ReconOf(lines: seq<StatusLine>, heads: seq<Head>, s: Summary, collected: Option<seq<string>>): Recon {
    var order := Order(lines);
    Recon(s.verdict.Some? && s.ran.Some?,
          s.ran == Some(|order|),
          CountHeads(heads, IsError) == s.errors,
          CountHeads(heads, IsFail) == s.failures,
          CountLines(lines, IsSkip) == s.skipped,
          CountLines(lines, IsMainXf) == s.expectedFailures,
          CountLines(lines, IsMainUs) == s.unexpectedSuccesses,
          s.countsRecognised,
          UnmatchedCount(heads) == 0 && forall id | id in Blamed(heads) :: id in order,
          s.exit.Some? && (s.verdict == Some(true)) == (s.exit == Some(0)),
          collected.Some? ==> multiset(order) == multiset(collected.value),
          forall r | r in Records(lines, heads, order) :: r.derived.problem == None)
  }

  function ParsedOf(lines: seq<StatusLine>, heads: seq<Head>, s: Summary, collected: Option<seq<string>>): Parsed {
    Parsed(Records(lines, heads, Order(lines)), ReconOf(lines, heads, s, collected), s)
  }

  // ---------------------------------------------------------------- parse

  /** `sum(... for t in ...)` over the tests' events. */
  method SumEvents(lines: seq<StatusLine>, tests: seq<Record>, p: Event -> bool) returns (sum: nat)
    requires |tests| == |Order(lines)| && forall i | 0 <= i < |tests| :: tests[i].events == EventsOf(lines, Order(lines)[i])
    ensures sum == CountLines(lines, p)
  {
    ghost var ids := Order(lines);
    ghost var f := (id: string) => CountEvents(EventsOf(lines, id), p);
    sum := 0;
    for i := 0 to |tests|
      invariant sum == Total(ids[..i], f)
    {
      assert ids[..i + 1][..i] == ids[..i];
      sum := sum + CountEvents(tests[i].events, p);
    }
    assert ids[..|tests|] == ids;
    OrderDistinct(lines);
    EventsAddUp(lines, ids, p);
  }

  /** The count over all collected blocks. */
  method SumBlocks(heads: seq<Head>, keys: seq<string>, per: map<string, seq<Block>>, p: Block -> bool) returns (sum: nat)
    requires Distinct(keys) && per.Keys == (set id | id in keys) && forall id | id in keys :: per[id] == BlocksOf(heads, id)
    requires Blamed(heads) <= set id | id in keys
    ensures sum == CountHeads(heads, p)
  {
    ghost var f := (id: string) => CountBlocks(BlocksOf(heads, id), p);
    sum := 0;
    for i := 0 to |keys|
      invariant sum == Total(keys[..i], f)
    {
      assert keys[..i + 1][..i] == keys[..i];
      sum := sum + CountBlocks(per[keys[i]], p);
    }
    assert keys[..|keys|] == keys;
    forall h | h in heads && h.Head? ensures h.id in keys { assert h.id in Blamed(heads); }
    BlocksAddUp(heads, keys, p);
  }

  /** The per-test loop of `parse`. */
  method BuildRecords(lines: seq<StatusLine>, heads: seq<Head>, order: seq<string>,
                      events: map<string, seq<Event>>, per: map<string, seq<Block>>)
    returns (tests: seq<Record>, violations: nat)
    requires forall id | id in order :: id in events && events[id] == EventsOf(lines, id)
    requires forall id | id in order :: id in per && per[id] == BlocksOf(heads, id)
    ensures tests == Records(lines, heads, order)
    ensures violations == 0 <==> forall r | r in tests :: r.derived.problem == None
  {
    tests, violations := [], 0;
    for i := 0 to |order|
      invariant tests == Records(lines, heads, order[..i])
      invariant violations == 0 <==> forall r | r in tests :: r.derived.problem == None
    {
      var id := order[i];
      assert order[..i + 1][..i] == order[..i];
      var record := RecordOf(id, events[id], per[id]);
      if record.derived.problem.Some? { violations := violations + 1; }
      tests := tests + [record];
    }
    assert order[..|order|] == order;
  }

  lemma UnreportedKeys(keys: seq<string>, order: seq<string>, heads: seq<Head>)
    requires (set id | id in keys) == (set id | id in order) + Blamed(heads)
    ensures (set id | id in keys && id !in order) == {} <==> forall id | id in Blamed(heads) :: id in order
    ensures forall id :: id in keys <==> id in order || id in Blamed(heads)
  {
    forall id ensures id in keys <==> id in order || id in Blamed(heads) {
      assert id in (set j | j in keys) <==> id in (set j | j in order) + Blamed(heads);
    }
    var u := set id | id in keys && id !in order;
    assert forall id :: id in u <==> id in Blamed(heads) && id !in order;
    assert u == {} <==> forall id :: id !in u;
  }

  /** The five counts that are compared with the runner's summary. */
  method Totals(lines: seq<StatusLine>, heads: seq<Head>, keys: seq<string>, per: map<string, seq<Block>>, tests: seq<Record>)
    returns (errors: nat, failures: nat, skips: nat, expectedFailures: nat, unexpectedSuccesses: nat)
    requires |tests| == |Order(lines)| && forall i | 0 <= i < |tests| :: tests[i].events == EventsOf(lines, Order(lines)[i])
    requires Distinct(keys) && per.Keys == (set id | id in keys) && forall id | id in keys :: per[id] == BlocksOf(heads, id)
    requires Blamed(heads) <= set id | id in keys
    ensures errors == CountHeads(heads, IsError) && failures == CountHeads(heads, IsFail)
    ensures skips == CountLines(lines, IsSkip)
    ensures expectedFailures == CountLines(lines, IsMainXf) && unexpectedSuccesses == CountLines(lines, IsMainUs)
  {
    hide *;
    errors := SumBlocks(heads, keys, per, IsError);
    failures := SumBlocks(heads, keys, per, IsFail);
    skips := SumEvents(lines, tests, IsSkip);
    expectedFailures := SumEvents(lines, tests, IsMainXf);
    unexpectedSuccesses := SumEvents(lines, tests, IsMainUs);
  }

  /** `parse`, from recognised lines and heads on: grouping, one record per reported test, every total. */
  method Parse(lines: seq<StatusLine>, heads: seq<Head>, summary: Summary, collected: Option<seq<string>>) returns (out: Parsed)
    ensures out == ParsedOf(lines, heads, summary, collected)
  {
    hide EventsOf; hide BlocksOf; hide Order; hide Records; hide RecordOf; hide CountLines; hide CountHeads;
    hide UnmatchedCount; hide Blamed;
    var order, events := GroupEvents(lines);
    OrderDistinct(lines);
    var keys, per, unmatched := GroupBlocks(heads, order);
    UnreportedKeys(keys, order, heads);
    var tests, violations := BuildRecords(lines, heads, order, events, per);
    RecordEvents(lines, heads, tests);
    var errors, failures, skips, xf, us := Totals(lines, heads, keys, per, tests);
    var unreported := set id | id in keys && id !in order;
    var recon := Recon(
      summary.verdict.Some? && summary.ran.Some?, summary.ran == Some(|order|),
      errors == summary.errors, failures == summary.failures, skips == summary.skipped,
      xf == summary.expectedFailures, us == summary.unexpectedSuccesses, summary.countsRecognised,
      unmatched == 0 && unreported == {},
      summary.exit.Some? && (summary.verdict == Some(true)) == (summary.exit == Some(0)),
      collected.Some? ==> multiset(order) == multiset(collected.value),
      violations == 0);
    out := Parsed(tests, recon, summary);
  }

  lemma RecordEvents(lines: seq<StatusLine>, heads: seq<Head>, tests: seq<Record>)
    requires tests == Records(lines, heads, Order(lines))
    ensures |tests| == |Order(lines)| && forall i | 0 <= i < |tests| :: tests[i].events == EventsOf(lines, Order(lines)[i])
  {
  }

  // ---------------------------------------------------------------- conservation over the log

  lemma {:induction false} EventSplit(ev: seq<Event>, k: Status)
    ensures CountEvents(ev, (e: Event) => e.status == k) == multiset(Mains(ev))[k] + CountSubs(Subs(ev), k)
  {
    if ev != [] {
      var n := |ev| - 1;
      EventSplit(ev[..n], k);
      FilterAppend(Subs(ev[..n]), [SubEvent(ev[n].status, ev[n].params)], (e: SubEvent) => e.status == k);
    }
  }

  lemma {:induction false} BlockCount(bs: seq<Block>, k: Status)
    ensures CountBlocks(bs, (b: Block) => b.kind == k) == |OfKind(bs, k)|
  {
    if bs != [] {
      var n := |bs| - 1;
      BlockCount(bs[..n], k);
      assert bs == bs[..n] + [bs[n]];
      FilterAppend(bs[..n], [bs[n]], (b: Block) => b.kind == k);
    }
  }

  lemma {:induction false} BlocksAreLogBlocks(heads: seq<Head>, id: string)
    requires forall h | h in heads :: LogHead(h)
    ensures LogBlocks(BlocksOf(heads, id))
  {
    if heads != [] {
      BlocksAreLogBlocks(heads[..|heads| - 1], id);
      assert heads[|heads| - 1] in heads;
    }
  }

  /** If every test is lawful and every block is matched to a reported test, the log carries as many FAIL
      events as FAIL blocks and as many ERROR events as ERROR blocks. */
  lemma LogConserves(lines: seq<StatusLine>, heads: seq<Head>, k: Status)
    requires IsFailure(k) && forall h | h in heads :: LogHead(h)
    requires forall id | id in Order(lines) ::
               Accounting(Mains(EventsOf(lines, id)), Subs(EventsOf(lines, id)), BlocksOf(heads, id)) == None
    requires forall h | h in heads && h.Head? :: h.id in Order(lines)
    ensures CountLines(lines, (e: Event) => e.status == k) == CountHeads(heads, (b: Block) => b.kind == k)
  {
    var ids := Order(lines);
    var p := (e: Event) => e.status == k;
    var q := (b: Block) => b.kind == k;
    OrderDistinct(lines);
    EventsAddUp(lines, ids, p);
    BlocksAddUp(heads, ids, q);
    var f := (id: string) => CountEvents(EventsOf(lines, id), p);
    var g := (id: string) => CountBlocks(BlocksOf(heads, id), q);
    forall id | id in ids ensures f(id) == g(id) {
      var ev := EventsOf(lines, id);
      BlocksAreLogBlocks(heads, id);
      EventSplit(ev, k);
      BlockCount(BlocksOf(heads, id), k);
      EventsMatchBlocks(Mains(ev), Subs(ev), BlocksOf(heads, id), k);
    }
    TotalSame(ids, f, g);
  }
}
