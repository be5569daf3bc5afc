/** The isolation verdict, recomputed from a run's own checkpoint records. */
module IsolationVerdict {
  import opened Prelude

  /** Every test has a CP-A record, the suite one CP-0 before it and one CP-Z after it, and one summary. In a
      CP-A record `applicable` is false only when the record says so outright. */
  datatype Checkpoint =
    | Start(requirementsMet: bool)
    | Test(test: string, applicable: bool, accessForbidden: bool, established: bool)
    | End(established: bool)
    | Flush
    | Summary(endEstablished: bool, verdict: string)
    | Other

  datatype Record = Record(nonce: nat, checkpoint: Checkpoint)

  datatype Line = Blank | NotJson | Json(record: Record)

  datatype Reason = StartUnmet | EndNotEstablished | SummaryLacksEnd | Duplicates | IdentitiesDiffer | Unresolved | SummaryDisagrees

  datatype Isolation =
    | Problem
    | Verdict(pass: bool, reasons: seq<Reason>, checkpoints: nat, collected: nat, applicable: int, established: nat,
              notApplicable: nat, flushes: nat)

  const PASS := "PASS"
  const NOT_ESTABLISHED := "NOT ESTABLISHED"

  // ---------------------------------------------------------------- the records

  function RecordsOf(lines: seq<Line>): Option<seq<Record>> {
    if lines == [] then Some([])
    else match lines[0]
         case Blank => RecordsOf(lines[1..])
         case NotJson => None
         case Json(r) => (match RecordsOf(lines[1..]) case None => None case Some(rest) => Some([r] + rest))
  }

  function Marks(records: seq<Record>, p: Checkpoint -> bool): (r: seq<Checkpoint>)
    ensures forall i | 0 <= i < |r| :: p(r[i])
  {
    if records == [] then []
    else (if p(records[0].checkpoint) then [records[0].checkpoint] else []) + Marks(records[1..], p)
  }

  function Starts(records: seq<Record>): (r: seq<Checkpoint>)
    ensures forall i | 0 <= i < |r| :: r[i].Start?
  {
    Marks(records, (c: Checkpoint) => c.Start?)
  }

  function Tests(records: seq<Record>): (r: seq<Checkpoint>)
    ensures AllTests(r)
  {
    Marks(records, (c: Checkpoint) => c.Test?)
  }

  function Ends(records: seq<Record>): (r: seq<Checkpoint>)
    ensures forall i | 0 <= i < |r| :: r[i].End?
  {
    Marks(records, (c: Checkpoint) => c.End?)
  }

  function Flushes(records: seq<Record>): seq<Checkpoint> { Marks(records, (c: Checkpoint) => c.Flush?) }
  function Summaries(records: seq<Record>): (r: seq<Checkpoint>)
    ensures forall i | 0 <= i < |r| :: r[i].Summary?
  {
    Marks(records, (c: Checkpoint) => c.Summary?)
  }


  predicate LawfulNa(c: Checkpoint) { c.Test? && !c.applicable && c.accessForbidden }

  predicate Established(c: Checkpoint) { c.Test? && c.established && c.applicable }

  /** `established` and `lawful_na` of the source. */
  function EstablishedOf(cs: seq<Checkpoint>): (r: seq<Checkpoint>)
    ensures AllTests(r)
  {
    var r := Filter(cs, Established);
    assert forall i | 0 <= i < |r| :: r[i] in r;
    r
  }

  function LawfulNaOf(cs: seq<Checkpoint>): (r: seq<Checkpoint>)
    ensures AllTests(r)
  {
    var r := Filter(cs, LawfulNa);
    assert forall i | 0 <= i < |r| :: r[i] in r;
    r
  }

  predicate AllTests(cs: seq<Checkpoint>) { forall i | 0 <= i < |cs| :: cs[i].Test? }

  function IdSet(cs: seq<Checkpoint>): set<string>
    requires AllTests(cs)
  {
    set c | c in cs :: c.test
  }

  function Members(ids: seq<string>): set<string> { set t | t in ids }

  // ---------------------------------------------------------------- the verdict

  function Unless(met: bool, reason: Reason): (r: seq<Reason>)
    ensures forall x :: x in r <==> x == reason && !met
  {
    if met then [] else [reason]
  }

  /** The reasons not to pass, as the records alone give them. */
  function ReasonsOf(records: seq<Record>, collected: seq<string>): seq<Reason>
    requires |Starts(records)| == |Ends(records)| == |Summaries(records)| == 1
  {
    var tests := Tests(records);
    var ids := IdSet(tests);
    Unless(Starts(records)[0].requirementsMet, StartUnmet)
    + Unless(Ends(records)[0].established, EndNotEstablished)
    + Unless(Summaries(records)[0].endEstablished, SummaryLacksEnd)
    + Unless(|tests| == |ids|, Duplicates)
    + Unless(ids == Members(collected), IdentitiesDiffer)
    + Unless(ids - IdSet(EstablishedOf(tests)) - IdSet(LawfulNaOf(tests)) == {}, Unresolved)
  }

  /** `read_isolation`. */
  method ReadIsolation(lines: Option<seq<Line>>, nonce: nat, collected: seq<string>) returns (r: Isolation)
    ensures r.Verdict? ==> lines.Some? && RecordsOf(lines.value).Some?
    ensures r.Verdict? ==> Trustworthy(RecordsOf(lines.value).value, nonce)
                           && r == VerdictOf(RecordsOf(lines.value).value, collected)
    ensures r.Problem? ==> lines.None? || RecordsOf(lines.value).None? || !Trustworthy(RecordsOf(lines.value).value, nonce)
  {
    if lines.None? { return Problem; }
    var all := lines.value;
    var records: seq<Record> := [];
    assert all[0..] == all;
    assert RecordsOf(all).Some? ==> records + RecordsOf(all).value == RecordsOf(all).value;
    for n := 0 to |all|
      invariant match RecordsOf(all[n..])
                case None => RecordsOf(all).None?
                case Some(rest) => RecordsOf(all) == Some(records + rest)
    {
      assert all[n..][1..] == all[n + 1..];
      if all[n].NotJson? { return Problem; }
      if all[n].Json? {
        ghost var rest := RecordsOf(all[n + 1..]);
        assert rest.Some? ==> records + ([all[n].record] + rest.value) == (records + [all[n].record]) + rest.value;
        records := records + [all[n].record];
      }
    }
    assert records + [] == records;
    if records == [] || exists x :: x in records && x.nonce != nonce { return Problem; }
    if |Starts(records)| != 1 || |Ends(records)| != 1 || |Summaries(records)| != 1 { return Problem; }
    var tests := Tests(records);
    var reasons := ReasonsOf(records, collected);
    var verdict := if reasons == [] then PASS else NOT_ESTABLISHED;
    if Summaries(records)[0].verdict != verdict {
      reasons := reasons + [SummaryDisagrees];
      verdict := NOT_ESTABLISHED;
    }
    var na, established := |LawfulNaOf(tests)|, |EstablishedOf(tests)|;
    return Verdict(verdict == PASS, reasons, |tests|, |collected|, |tests| - na, established, na, |Flushes(records)|);
  }

  predicate Trustworthy(records: seq<Record>, nonce: nat) {
    && records != [] && (forall x | x in records :: x.nonce == nonce)
    && |Starts(records)| == |Ends(records)| == |Summaries(records)| == 1
  }

  function VerdictOf(records: seq<Record>, collected: seq<string>): Isolation
    requires |Starts(records)| == |Ends(records)| == |Summaries(records)| == 1
  {
    var tests, reasons := Tests(records), ReasonsOf(records, collected);
    var agrees := Summaries(records)[0].verdict == if reasons == [] then PASS else NOT_ESTABLISHED;
    Verdict(reasons == [] && agrees, reasons + if agrees then [] else [SummaryDisagrees], |tests|, |collected|,
            |tests| - |LawfulNaOf(tests)|, |EstablishedOf(tests)|, |LawfulNaOf(tests)|, |Flushes(records)|)
  }

  // ---------------------------------------------------------------- what PASS means

  /** Nothing here is counted: every collected test has a record and only collected tests have one, no test has
      two, and each record shows the test established or lawfully out of scope, never both. */
  ghost predicate Partition(tests: seq<Checkpoint>, collected: seq<string>)
    requires AllTests(tests)
  {
    && (forall i, j | 0 <= i < j < |tests| :: tests[i].test != tests[j].test)
    && (forall t | t in collected :: exists i :: 0 <= i < |tests| && tests[i].test == t)
    && (forall i | 0 <= i < |tests| :: tests[i].test in collected)
    && (forall i | 0 <= i < |tests| :: Established(tests[i]) != LawfulNa(tests[i]))
  }

  lemma DistinctIds(cs: seq<Checkpoint>)
    requires AllTests(cs)
    ensures |IdSet(cs)| <= |cs|
    ensures |IdSet(cs)| == |cs| <==> forall i, j | 0 <= i < j < |cs| :: cs[i].test != cs[j].test
  {
    if cs != [] {
      var last, front := cs[|cs| - 1], cs[..|cs| - 1];
      DistinctIds(front);
      assert cs == front + [last];
      assert IdSet(cs) == IdSet(front) + {last.test};
      assert last.test in IdSet(front) <==> exists i :: 0 <= i < |front| && front[i].test == last.test;
    }
  }

  lemma {:induction false} ExactlyOneKind(cs: seq<Checkpoint>)
    requires forall i | 0 <= i < |cs| :: Established(cs[i]) != LawfulNa(cs[i])
    ensures |cs| == |EstablishedOf(cs)| + |LawfulNaOf(cs)|
  {
    if cs != [] { ExactlyOneKind(cs[1..]); }
  }

  /** With no test recorded twice, "every id is established or lawfully not applicable" speaks of its one record. */
  lemma ResolvedRecords(tests: seq<Checkpoint>)
    requires AllTests(tests) && forall i, j | 0 <= i < j < |tests| :: tests[i].test != tests[j].test
    ensures IdSet(tests) - IdSet(EstablishedOf(tests)) - IdSet(LawfulNaOf(tests)) == {}
            <==> forall i | 0 <= i < |tests| :: Established(tests[i]) != LawfulNa(tests[i])
  {
    var est, na := IdSet(EstablishedOf(tests)), IdSet(LawfulNaOf(tests));
    forall i | 0 <= i < |tests| ensures tests[i].test in est <==> Established(tests[i]) {
      if tests[i].test in est {
        var c :| c in EstablishedOf(tests) && c.test == tests[i].test;
        var j :| 0 <= j < |tests| && tests[j] == c;
      }
    }
    forall i | 0 <= i < |tests| ensures tests[i].test in na <==> LawfulNa(tests[i]) {
      if tests[i].test in na {
        var c :| c in LawfulNaOf(tests) && c.test == tests[i].test;
        var j :| 0 <= j < |tests| && tests[j] == c;
      }
    }
    var unresolved := IdSet(tests) - est - na;
    forall i | 0 <= i < |tests| ensures tests[i].test in unresolved <==> Established(tests[i]) == LawfulNa(tests[i]) {
      assert tests[i].test in IdSet(tests);
    }
    if unresolved != {} {
      var t :| t in unresolved;
      var c :| c in tests && c.test == t;
      var i :| 0 <= i < |tests| && tests[i] == c;
    }
  }

  lemma SameIds(tests: seq<Checkpoint>, collected: seq<string>)
    requires AllTests(tests)
    ensures IdSet(tests) == Members(collected)
            <==> (forall t | t in collected :: exists i :: 0 <= i < |tests| && tests[i].test == t)
                 && (forall i | 0 <= i < |tests| :: tests[i].test in collected)
  {
    forall t ensures t in IdSet(tests) <==> exists i :: 0 <= i < |tests| && tests[i].test == t {
      if t in IdSet(tests) {
        var c :| c in tests && c.test == t;
        var i :| 0 <= i < |tests| && tests[i] == c;
      }
    }
    assert forall i | 0 <= i < |tests| :: tests[i].test in IdSet(tests);
    assert forall t :: t in Members(collected) <==> t in collected;
  }

  /** PASS exactly when the records split the collected tests, the three suite-wide conditions hold, and the
      runner's own summary says PASS too. */
  lemma PassIffPartition(records: seq<Record>, nonce: nat, collected: seq<string>)
    requires Trustworthy(records, nonce)
    ensures VerdictOf(records, collected).pass
            <==> && Partition(Tests(records), collected)
                 && Starts(records)[0].requirementsMet && Ends(records)[0].established
                 && Summaries(records)[0].endEstablished && Summaries(records)[0].verdict == PASS
  {
    var tests := Tests(records);
    DistinctIds(tests);
    if |IdSet(tests)| == |tests| { ResolvedRecords(tests); }
    assert IdSet(tests) == Members(collected)
           <==> (forall t | t in collected :: exists i :: 0 <= i < |tests| && tests[i].test == t)
                && (forall i | 0 <= i < |tests| :: tests[i].test in collected) by { SameIds(tests, collected); }
  }

  /** Every other verdict says why, and only why: each reason is given exactly when the records show it. */
  lemma ReasonsMean(records: seq<Record>, nonce: nat, collected: seq<string>)
    requires Trustworthy(records, nonce)
    ensures var v := VerdictOf(records, collected); var tests := Tests(records);
            && (v.pass <==> v.reasons == [])
            && (StartUnmet in v.reasons <==> !Starts(records)[0].requirementsMet)
            && (EndNotEstablished in v.reasons <==> !Ends(records)[0].established)
            && (SummaryLacksEnd in v.reasons <==> !Summaries(records)[0].endEstablished)
            && (Duplicates in v.reasons <==> exists i, j :: 0 <= i < j < |tests| && tests[i].test == tests[j].test)
            && (IdentitiesDiffer in v.reasons <==>
                  (exists t :: t in collected && forall i | 0 <= i < |tests| :: tests[i].test != t)
                  || exists i :: 0 <= i < |tests| && tests[i].test !in collected)
            && (Unresolved in v.reasons <==> exists i :: 0 <= i < |tests| && NeverResolved(tests, tests[i].test))
            && (SummaryDisagrees in v.reasons <==>
                  Summaries(records)[0].verdict != if v.reasons in {[], [SummaryDisagrees]} then PASS else NOT_ESTABLISHED)
  {
    hide IdSet; hide Members; hide NeverResolved; hide EstablishedOf; hide LawfulNaOf; hide Starts; hide Ends; hide Summaries;
    hide Tests; hide ReasonsOf;
    var tests := Tests(records);
    DistinctIds(tests);
    SameIds(tests, collected);
    UnresolvedIff(tests);
    OwnReasons(records, collected);
    OneMore(ReasonsOf(records, collected), SummaryDisagrees);
  }

  lemma OneMore<T>(xs: seq<T>, x: T)
    ensures xs + [] == xs && (x !in xs ==> (xs + [x] == [x] <==> xs == []) && xs + [x] != [])
    ensures forall y :: y in xs + [x] <==> y in xs || y == x
  {
    if xs + [x] == [x] { assert |xs + [x]| == |xs| + 1; }
  }

  lemma OwnReasons(records: seq<Record>, collected: seq<string>)
    requires |Starts(records)| == |Ends(records)| == |Summaries(records)| == 1
    ensures var rs := ReasonsOf(records, collected); var tests := Tests(records); var ids := IdSet(tests);
            && (StartUnmet in rs <==> !Starts(records)[0].requirementsMet)
            && (EndNotEstablished in rs <==> !Ends(records)[0].established)
            && (SummaryLacksEnd in rs <==> !Summaries(records)[0].endEstablished)
            && (Duplicates in rs <==> |tests| != |ids|) && (IdentitiesDiffer in rs <==> ids != Members(collected))
            && (Unresolved in rs <==> ids - IdSet(EstablishedOf(tests)) - IdSet(LawfulNaOf(tests)) != {})
            && SummaryDisagrees !in rs
  {
    hide IdSet; hide Members; hide EstablishedOf; hide LawfulNaOf; hide Starts; hide Ends; hide Summaries; hide Tests; hide Unless;
    var tests, ids := Tests(records), IdSet(Tests(records));
    InConcat(Unless(Starts(records)[0].requirementsMet, StartUnmet), Unless(Ends(records)[0].established, EndNotEstablished),
             Unless(Summaries(records)[0].endEstablished, SummaryLacksEnd), Unless(|tests| == |ids|, Duplicates),
             Unless(ids == Members(collected), IdentitiesDiffer),
             Unless(ids - IdSet(EstablishedOf(tests)) - IdSet(LawfulNaOf(tests)) == {}, Unresolved));
  }

  lemma InConcat<T>(a: seq<T>, b: seq<T>, c: seq<T>, d: seq<T>, e: seq<T>, f: seq<T>)
    ensures forall x :: x in a + b + c + d + e + f <==> x in a || x in b || x in c || x in d || x in e || x in f
  {
    assert forall x :: x in a + b <==> x in a || x in b;
    assert forall x :: x in a + b + c <==> x in a + b || x in c;
    assert forall x :: x in a + b + c + d <==> x in a + b + c || x in d;
    assert forall x :: x in a + b + c + d + e <==> x in a + b + c + d || x in e;
  }

  /** No record of the test shows it established or lawfully out of scope. */
  predicate NeverResolved(tests: seq<Checkpoint>, test: string)
    requires AllTests(tests)
  {
    forall j | 0 <= j < |tests| && tests[j].test == test :: !Established(tests[j]) && !LawfulNa(tests[j])
  }

  lemma UnresolvedIff(tests: seq<Checkpoint>)
    requires AllTests(tests)
    ensures IdSet(tests) - IdSet(EstablishedOf(tests)) - IdSet(LawfulNaOf(tests)) != {}
            <==> exists i :: 0 <= i < |tests| && NeverResolved(tests, tests[i].test)
  {
    var est, na := IdSet(EstablishedOf(tests)), IdSet(LawfulNaOf(tests));
    forall t | t in IdSet(tests) ensures t in est || t in na <==> !NeverResolved(tests, t) {
      if t in est {
        var c :| c in EstablishedOf(tests) && c.test == t;
        var j :| 0 <= j < |tests| && tests[j] == c;
      }
      if t in na {
        var c :| c in LawfulNaOf(tests) && c.test == t;
        var j :| 0 <= j < |tests| && tests[j] == c;
      }
      if !NeverResolved(tests, t) {
        var j :| 0 <= j < |tests| && tests[j].test == t && (Established(tests[j]) || LawfulNa(tests[j]));
        assert Established(tests[j]) ==> tests[j] in EstablishedOf(tests);
        assert LawfulNa(tests[j]) ==> tests[j] in LawfulNaOf(tests);
      }
    }
    var rest := IdSet(tests) - est - na;
    if i :| 0 <= i < |tests| && NeverResolved(tests, tests[i].test) { assert tests[i].test in rest; }
    if rest != {} {
      var t :| t in rest;
      var c :| c in tests && c.test == t;
      var i :| 0 <= i < |tests| && tests[i] == c;
      assert NeverResolved(tests, t) && tests[i].test == t;
    }
  }

  /** The counts of a PASS add up, and speak of the collected tests. */
  lemma PassCounts(records: seq<Record>, nonce: nat, collected: seq<string>)
    requires Trustworthy(records, nonce) && VerdictOf(records, collected).pass
    ensures var v := VerdictOf(records, collected);
            && v.checkpoints == v.established + v.notApplicable && v.applicable == v.established && v.reasons == []
            && (Distinct(collected) ==> v.checkpoints == v.collected)
  {
    PassIffPartition(records, nonce, collected);
    var tests := Tests(records);
    ExactlyOneKind(tests);
    DistinctIds(tests);
    if Distinct(collected) {
      DistinctSize(collected);
      assert IdSet(tests) == Members(collected) by {
        assert forall i | 0 <= i < |tests| :: tests[i].test in IdSet(tests);
      }
    }
  }

  lemma {:induction false} DistinctSize(s: seq<string>)
    requires Distinct(s)
    ensures |Members(s)| == |s|
  {
    if s != [] {
      DistinctSize(s[1..]);
      assert s == [s[0]] + s[1..];
      assert Members(s) == Members(s[1..]) + {s[0]};
    }
  }
}
