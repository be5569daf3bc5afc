/** Whole runs on the shared server: the route's atomic statements, each guarded by the evidence the code
    looks at (a fixture record, a creation receipt), in any order with the statements of others. */
module DatabaseRuns {
  import opened Prelude
  import opened DatabaseOwnership

  /** A CREATE whose new oid is read and recorded is one action with that reading; a CREATE whose reply or
      process is lost is `CreateLost`. The two drops act on a record and on a receipt. */
  datatype Action =
    | OtherClients
    | Register(f: Fixture)
    | Announce(a: Attempt)
    | Write(path: string, e: Event)
    | CreateLost(name: string)
    | CreateFixture(k: nat)
    | CreateTest(name: string, path: string)
    | DropOnRecord(k: nat)
    | DropOnReceipt(name: string, path: string)
    | Note(k: nat, state: FixtureState)

  /** A creation receipt of this run in the file names the database that is under the name now. */
  predicate ReceiptMatches(w: World, name: string, path: string) {
    name in w.databases && Receipt(w.nonce, Created(name, w.databases[name])) in LinesOf(w, path)
  }

  predicate RecordMatches(w: World, k: nat) {
    k < |w.lifecycle| && w.lifecycle[k].state == Confirmed
    && w.lifecycle[k].name in w.databases && w.lifecycle[k].oid == Some(w.databases[w.lifecycle[k].name])
  }

  ghost predicate Takes(w: World, a: Action, v: World) {
    match a
    case OtherClients => Others(w, v)
    case Register(f) => f.state == Attempted && v == w.(lifecycle := w.lifecycle + [f])
    case Announce(x) => v == w.(attempted := w.attempted + [x])
    case Write(path, e) => MayWrite(w, path, e) && v == Append(w, path, e)
    case CreateLost(name) => name !in w.databases && Recorded(w, name) && v == CreateDatabase(w, name)
    case CreateFixture(k) =>
      k < |w.lifecycle| && w.lifecycle[k].state == CreateIssued && w.lifecycle[k].name !in w.databases
      && v == FixtureCreated(w, k)
    case CreateTest(name, path) =>
      name !in w.databases && MayCreate(w, name, path) && HasAttempt(w, name, path) && v == TestCreated(w, name, path)
    case DropOnRecord(k) => RecordMatches(w, k) && v == DropDatabase(w, w.lifecycle[k].name)
    case DropOnReceipt(name, path) => ReceiptMatches(w, name, path) && v == DropDatabase(w, name)
    case Note(k, state) => k < |w.lifecycle| && MayNote(w, k, state) && v == Mark(w, k, state, w.lifecycle[k].oid)
  }

  /** The runner works for an announced database, or under the name of a live fixture. */
  predicate MayCreate(w: World, name: string, path: string) { Announced(w, name, path) || HasFixture(w, name) }

  /** When each receipt is written: the attempt after the name was seen free, the refusal when it was seen taken,
      both by a runner that may create; a creation receipt outside the runner for a confirmed fixture, into a new
      file; the two of a destruction at any time. */
  predicate MayWrite(w: World, path: string, e: Event) {
    match e
    case CreateAttempt(name) => MayCreate(w, name, path) && name !in w.databases
    case CollisionRefused(name, existing) => MayCreate(w, name, path) && CurrentOid(w, name) == Some(existing)
    case Created(name, oid) =>
      path !in w.files && exists f :: f in w.lifecycle && f.state == Confirmed && f.name == name && f.oid == Some(oid)
    case DestroyRefused(_, _) => true
    case Destroyed(_, _, _) => true
  }

  /** What the route notes on a record. A record is closed, as dropped or as refused, only when nothing of the run is
      left under its name: a CREATE is refused for a name that was seen free when the record said that it was issued. */
  ghost predicate MayNote(w: World, k: nat, state: FixtureState)
    requires k < |w.lifecycle|
  {
    match w.lifecycle[k].state
    case Attempted => state in {NotCreated, CreateIssued}
    case CreateIssued => state == Exists || (state == NotCreated && NameClear(w, w.lifecycle[k].name))
    case Confirmed => state == Dropped && NameClear(w, w.lifecycle[k].name)
    case _ => false
  }

  /** CREATE is sent only after a record or an attempt receipt says so. */
  predicate Recorded(w: World, name: string) {
    (exists f :: f in w.lifecycle && f.state == CreateIssued && f.name == name)
    || (HasFixture(w, name) && exists p :: p in w.files && HasAttempt(w, name, p))
    || (exists a :: a in w.attempted && a.name == name && HasAttempt(w, name, a.path))
  }

  function FixtureCreated(w: World, k: nat): World
    requires k < |w.lifecycle| && w.lifecycle[k].name !in w.databases
  {
    Mark(Confirm(CreateDatabase(w, w.lifecycle[k].name), w.lifecycle[k].name), k, Confirmed, Some(w.next))
  }

  function TestCreated(w: World, name: string, path: string): World
    requires name !in w.databases
  {
    Append(Confirm(CreateDatabase(w, name), name), path, Created(name, w.next))
  }

  /** The evidence for a drop is never about somebody else's database. */
  lemma EvidenceIsOwnership(w: World, name: string, path: string, k: nat)
    requires Inv(w)
    ensures ReceiptMatches(w, name, path) ==> w.databases[name] in w.confirmed && w.confirmed[w.databases[name]] == name
    ensures RecordMatches(w, k) ==> w.databases[w.lifecycle[k].name] in w.confirmed
                                    && w.confirmed[w.databases[w.lifecycle[k].name]] == w.lifecycle[k].name
  {
    hide AllCovered;
    assert k < |w.lifecycle| ==> w.lifecycle[k] in w.lifecycle;
  }

  lemma MayCreateIsTraced(w: World, name: string, path: string)
    requires MayCreate(w, name, path) && HasAttempt(w, name, path)
    ensures Traced(w, name) && (HasFile(w, path) || HasFixture(w, name))
  {
    hide HasReceipt; hide HasAttempt;
    if HasFixture(w, name) {
      FixtureIsTraced(w, name);
    } else {
      var a :| a in w.attempted && a.path == path && a.name == name;
      assert Names(w, a, name);
    }
  }

  lemma FixtureIsTraced(w: World, name: string)
    requires HasFixture(w, name)
    ensures Traced(w, name)
  {
    hide Names;
    var f :| f in w.lifecycle && f.state == Confirmed && f.name == name;
    assert Tracks(f);
  }

  lemma RecordedIsTraced(w: World, name: string)
    requires Recorded(w, name)
    ensures Traced(w, name)
  {
    hide HasReceipt; hide HasAttempt;
    if HasFixture(w, name) { FixtureIsTraced(w, name); }
    if f :| f in w.lifecycle && f.state == CreateIssued && f.name == name { assert Tracks(f); }
    if a :| a in w.attempted && a.name == name && HasAttempt(w, name, a.path) { assert Names(w, a, name); }
  }

  lemma CreationIsTraced(w: World, a: Action, v: World)
    requires Takes(w, a, v)
    ensures a.CreateLost? ==> Traced(w, a.name)
    ensures a.CreateFixture? ==> a.k < |w.lifecycle| && Traced(w, w.lifecycle[a.k].name)
    ensures a.CreateTest? ==> Traced(w, a.name) && (HasFile(w, a.path) || HasFixture(w, a.name))
  {
    hide Traced; hide HasFile; hide HasFixture; hide MayCreate; hide Recorded;
    if a.CreateFixture? { IssuedIsTraced(w, a.k); }
    if a.CreateLost? { RecordedIsTraced(w, a.name); }
    if a.CreateTest? { MayCreateIsTraced(w, a.name, a.path); }
  }

  lemma IssuedIsTraced(w: World, k: nat)
    requires k < |w.lifecycle| && w.lifecycle[k].state == CreateIssued
    ensures Traced(w, w.lifecycle[k].name) && Recorded(w, w.lifecycle[k].name)
  {
    assert w.lifecycle[k] in w.lifecycle && Tracks(w.lifecycle[k]);
  }

  lemma CreateKeepsRecords(w: World, a: Action, v: World)
    requires Inv(w) && Takes(w, a, v) && (a.CreateLost? || a.CreateFixture? || a.CreateTest?)
    ensures Inv(v)
  {
    hide Inv; hide Traced; hide HasFile; hide HasFixture; hide MayCreate; hide Recorded;
    CreationIsTraced(w, a, v);
    var name := if a.CreateFixture? then w.lifecycle[a.k].name else a.name;
    CreateKeeps(w, name);
    var u := CreateDatabase(w, name);
    if a.CreateTest? {
      SameRecords(w, u, name, a.path);
      ReceiptConfirms(u, name, a.path);
    }
    if a.CreateFixture? { FixtureConfirms(u, a.k); }
  }

  lemma SameRecords(w: World, u: World, name: string, path: string)
    requires u.attempted == w.attempted && u.lifecycle == w.lifecycle
    ensures HasFile(u, path) <==> HasFile(w, path)
    ensures HasFixture(u, name) <==> HasFixture(w, name)
    ensures MayCreate(u, name, path) <==> MayCreate(w, name, path)
  {
  }

  lemma WriteKeeps(w: World, path: string, e: Event)
    requires Inv(w) && MayWrite(w, path, e)
    ensures Inv(Append(w, path, e)) && (e.Created? ==> e.oid in w.confirmed && w.confirmed[e.oid] == e.name)
  {
    hide AllCovered; hide Traceable; hide Accounted;
    AppendKeeps(w, path, e);
  }

  lemma NoteKeeps(w: World, a: Action, v: World)
    requires Inv(w) && Takes(w, a, v) && a.Note?
    ensures Inv(v)
  {
    hide Inv; hide NameClear;
    MarkKeeps(w, a.k, a.state, w.lifecycle[a.k].oid);
  }

  lemma DropsKeep(w: World, a: Action, v: World)
    requires Inv(w) && Takes(w, a, v) && (a.DropOnRecord? || a.DropOnReceipt?)
    ensures Inv(v)
    ensures exists name :: name in w.databases && v == DropDatabase(w, name)
                           && w.databases[name] in w.confirmed && w.confirmed[w.databases[name]] == name
  {
    hide Inv; hide ReceiptMatches; hide RecordMatches;
    MatchesAreThere(w, a);
    var name := if a.DropOnReceipt? then a.name else w.lifecycle[a.k].name;
    EvidenceIsOwnership(w, name, if a.DropOnReceipt? then a.path else "", if a.DropOnRecord? then a.k else 0);
    DropKeeps(w, name);
  }

  lemma MatchesAreThere(w: World, a: Action)
    ensures a.DropOnReceipt? && ReceiptMatches(w, a.name, a.path) ==> a.name in w.databases
    ensures a.DropOnRecord? && RecordMatches(w, a.k) ==> a.k < |w.lifecycle| && w.lifecycle[a.k].name in w.databases
  {
  }

  lemma StepKeeps(w: World, a: Action, v: World)
    requires Inv(w) && Takes(w, a, v)
    ensures Inv(v)
  {
    hide Inv; hide Cleaning; hide ReceiptMatches; hide RecordMatches; hide Others;
    match a
    case OtherClients => OthersKeep(w, v);
    case Register(f) => RegisterKeeps(w, f);
    case Announce(x) => AttemptKeeps(w, x);
    case Write(path, e) => WriteKeeps(w, path, e);
    case CreateLost(name) => CreateKeepsRecords(w, a, v);
    case CreateFixture(k) => CreateKeepsRecords(w, a, v);
    case CreateTest(name, path) => CreateKeepsRecords(w, a, v);
    case DropOnRecord(k) => DropsKeep(w, a, v);
    case DropOnReceipt(name, path) => DropsKeep(w, a, v);
    case Note(k, state) => NoteKeeps(w, a, v);
  }

  ghost predicate IsRun(ws: seq<World>, acts: seq<Action>) {
    |ws| == |acts| + 1 && forall i | 0 <= i < |acts| :: Takes(ws[i], acts[i], ws[i + 1])
  }

  /** A run starts with somebody else's server and no record of its own. */
  ghost predicate Fresh(w: World) {
    Inv(w) && w.created == map[] && w.confirmed == map[] && w.drops == [] && w.lifecycle == [] && w.attempted == []
  }

  lemma {:induction false} RunKeeps(ws: seq<World>, acts: seq<Action>, i: nat)
    requires IsRun(ws, acts) && Fresh(ws[0]) && i < |ws|
    ensures Inv(ws[i]) && forall o | o in ws[i].created :: ws[0].next <= o < ws[i].next
    ensures ws[0].next <= ws[i].next
  {
    hide Inv; hide Takes;
    if i > 0 {
      RunKeeps(ws, acts, i - 1);
      assert Takes(ws[i - 1], acts[i - 1], ws[i]);
      StepKeeps(ws[i - 1], acts[i - 1], ws[i]);
      OidsGrow(ws[i - 1], acts[i - 1], ws[i]);
    } else {
      assert Inv(ws[0]);
    }
  }

  lemma OidsGrow(w: World, a: Action, v: World)
    requires Takes(w, a, v)
    ensures w.known <= v.known
    ensures w.next <= v.next && forall o | o in v.created && o !in w.created :: w.next <= o < v.next
  {
    hide ReceiptMatches; hide RecordMatches; hide LinesOf; hide MayWrite; hide MayNote; hide MayCreate; hide Recorded;
  }

  /** Owned drops only, over every run: every DROP hit a database that a CREATE of this run had made, after the
      run began and under that very name; whatever existed before is never hit. */
  lemma OwnedDropsOnly(ws: seq<World>, acts: seq<Action>, i: nat, d: Drop)
    requires IsRun(ws, acts) && Fresh(ws[0]) && i < |ws| && d in ws[i].drops
    ensures d.oid in ws[i].created && ws[i].created[d.oid] == d.name && ws[0].next <= d.oid
    ensures forall n | n in ws[0].databases :: ws[0].databases[n] != d.oid
  {
    hide Takes; hide AllCovered;
    RunKeeps(ws, acts, i);
    RunKeeps(ws, acts, 0);
  }

  /** A database that another client made, or one whose identity the run never confirmed, is not touched by any
      step of the run: only others can make it disappear. */
  lemma OthersAreUntouched(ws: seq<World>, acts: seq<Action>, i: nat, name: string)
    requires IsRun(ws, acts) && Fresh(ws[0]) && i < |acts| && acts[i] != OtherClients
    requires name in ws[i].databases && ws[i].databases[name] !in ws[i].confirmed
    ensures name in ws[i + 1].databases && ws[i + 1].databases[name] == ws[i].databases[name]
  {
    hide Inv; hide Takes; hide ReceiptMatches; hide RecordMatches; hide LinesOf; hide MayWrite; hide MayNote; hide MayCreate; hide Recorded;
    RunKeeps(ws, acts, i);
    var w, a, v := ws[i], acts[i], ws[i + 1];
    assert Takes(w, a, v);
    if a.DropOnRecord? || a.DropOnReceipt? {
      DropsKeep(w, a, v);
    } else {
      OthersStay(w, a, v, name);
    }
  }

  /** What was there before the run and is gone was dropped by others. */
  lemma EarlierIsNotLost(ws: seq<World>, acts: seq<Action>, i: nat, o: Oid)
    requires IsRun(ws, acts) && Fresh(ws[0]) && i < |ws| && Alive(ws[0], o) && !Alive(ws[i], o)
    ensures o in ws[i].taken
  {
    hide Takes; hide AllCovered; hide Sound; hide Alive; hide IsRun;
    RunKeeps(ws, acts, i);
    KnownStays(ws, acts, i, o);
    NotUnderAnyName(ws[0], o);
    forall d | d in ws[i].drops ensures d.oid != o { OwnedDropsOnly(ws, acts, i, d); }
  }

  lemma NotUnderAnyName(w: World, o: Oid)
    ensures Alive(w, o) <==> exists n :: n in w.databases && w.databases[n] == o
  {
  }

  lemma {:induction false} KnownStays(ws: seq<World>, acts: seq<Action>, i: nat, o: Oid)
    requires IsRun(ws, acts) && Fresh(ws[0]) && i < |ws| && Alive(ws[0], o)
    ensures o in ws[i].known
  {
    hide Takes; hide Sound; hide AllCovered;
    if i > 0 {
      KnownStays(ws, acts, i - 1, o);
      assert Takes(ws[i - 1], acts[i - 1], ws[i]);
      OidsGrow(ws[i - 1], acts[i - 1], ws[i]);
    }
  }

  /** Every database the run ever created, confirmed or not, is gone or can be found by cleanup. */
  lemma NothingUntraced(ws: seq<World>, acts: seq<Action>, i: nat, o: Oid)
    requires IsRun(ws, acts) && Fresh(ws[0]) && i < |ws| && o in ws[i].created
    ensures Alive(ws[i], o) ==> Traced(ws[i], ws[i].created[o]) && ws[i].created[o] in ws[i].databases
                                && ws[i].databases[ws[i].created[o]] == o
  {
    hide Takes; hide AllCovered; hide Accounted; hide Traced; hide IsRun;
    RunKeeps(ws, acts, i);
  }

  lemma OthersStay(w: World, a: Action, v: World, name: string)
    requires Takes(w, a, v) && !a.OtherClients? && !a.DropOnRecord? && !a.DropOnReceipt?
    ensures name in w.databases ==> name in v.databases && v.databases[name] == w.databases[name]
  {
    hide LinesOf; hide ReadReceipts;
  }

  // ---------------------------------------------------------------- stretches of runs

  ghost predicate RunFrom(ws: seq<World>, acts: seq<Action>, w: World, v: World) {
    IsRun(ws, acts) && ws[0] == w && ws[|ws| - 1] == v
  }

  /** v can follow w in a run. */
  ghost predicate Reaches(w: World, v: World) { exists ws, acts :: RunFrom(ws, acts, w, v) }

  lemma ReachesSelf(w: World)
    ensures Reaches(w, w)
  {
    assert RunFrom([w], [], w, w);
  }

  lemma ReachesNext(w: World, a: Action, v: World)
    requires Takes(w, a, v)
    ensures Reaches(w, v)
  {
    hide Takes;
    assert RunFrom([w, v], [a], w, v);
  }

  lemma ReachesJoin(u: World, v: World, w: World)
    requires Reaches(u, v) && Reaches(v, w)
    ensures Reaches(u, w)
  {
    hide Takes;
    var ws1, acts1 :| RunFrom(ws1, acts1, u, v);
    var ws2, acts2 :| RunFrom(ws2, acts2, v, w);
    var ws, acts := ws1 + ws2[1..], acts1 + acts2;
    forall i | 0 <= i < |acts| ensures Takes(ws[i], acts[i], ws[i + 1]) {
      if i < |acts1| {
        assert Takes(ws1[i], acts1[i], ws1[i + 1]);
      } else {
        assert Takes(ws2[i - |acts1|], acts2[i - |acts1|], ws2[i - |acts1| + 1]);
        assert ws[i] == ws2[i - |acts1|];
      }
    }
    assert RunFrom(ws, acts, u, w);
  }

  lemma ReachesStep(u: World, w: World, a: Action, v: World)
    requires Reaches(u, w) && Takes(w, a, v)
    ensures Reaches(u, v)
  {
    hide Reaches; hide Takes;
    ReachesNext(w, a, v);
    ReachesJoin(u, w, v);
  }

  lemma MayCreateIsRecorded(w: World, name: string, path: string)
    requires MayCreate(w, name, path) && HasAttempt(w, name, path)
    ensures Recorded(w, name)
  {
    assert path in w.files;
  }

  lemma AttemptStays(w: World, v: World, name: string, path: string)
    requires Cleaning(w, v)
    ensures HasAttempt(v, name, path) <==> HasAttempt(w, name, path)
  {
  }

  /** A stretch of cleanup is one that keeps the records and brings nothing back. */
  ghost predicate Cleans(w: World, v: World) { Cleaning(w, v) && Reaches(w, v) }

  lemma CleansSelf(w: World)
    ensures Cleans(w, w)
  {
    ReachesSelf(w);
  }

  lemma CleansJoin(u: World, v: World, w: World)
    requires Cleans(u, v) && Cleans(v, w)
    ensures Cleans(u, w)
  {
    hide Cleaning; hide Reaches;
    CleaningJoin(u, v, w);
    ReachesJoin(u, v, w);
  }

  /** What entitles to the drop of a database: a confirmed record of it, or a creation receipt. */
  ghost predicate Evidence(w: World, name: string, owned: Oid) {
    (exists k: nat :: k < |w.lifecycle| && IsRecordOf(w.lifecycle[k], name, owned))
    || exists path :: Receipt(w.nonce, Created(name, owned)) in LinesOf(w, path)
  }

  predicate IsRecordOf(f: Fixture, name: string, owned: Oid) { f.state == Confirmed && f.name == name && f.oid == Some(owned) }

  lemma EvidenceOwns(w: World, name: string, owned: Oid)
    requires Inv(w) && Evidence(w, name, owned)
    ensures owned in w.confirmed && w.confirmed[owned] == name
  {
    if k: nat :| k < |w.lifecycle| && IsRecordOf(w.lifecycle[k], name, owned) { assert w.lifecycle[k] in w.lifecycle; }
  }

  lemma EvidenceStays(w: World, v: World, name: string, owned: Oid)
    requires Cleaning(w, v) && Evidence(w, name, owned)
    ensures Evidence(v, name, owned)
  {
    hide LinesOf;
    if path :| Receipt(w.nonce, Created(name, owned)) in LinesOf(w, path) {
      assert Receipt(v.nonce, Created(name, owned)) in LinesOf(v, path);
    }
  }

  /** With such evidence the drop is a step of the run. */
  lemma DropIsAStep(w: World, name: string, owned: Oid)
    requires Evidence(w, name, owned) && CurrentOid(w, name) == Some(owned)
    ensures Reaches(w, DropDatabase(w, name))
  {
    hide Reaches; hide LinesOf;
    if k: nat :| k < |w.lifecycle| && IsRecordOf(w.lifecycle[k], name, owned) {
      ReachesNext(w, DropOnRecord(k), DropDatabase(w, name));
    } else {
      var path :| Receipt(w.nonce, Created(name, owned)) in LinesOf(w, path);
      ReachesNext(w, DropOnReceipt(name, path), DropDatabase(w, name));
    }
  }

  // ---------------------------------------------------------------- where cleanup is misled

  const EMPTY := World(1, map[], 7, map[], [], [], map[], map[], [], {}, {})
  const ANNOUNCED := EMPTY.(attempted := [Attempt("STEP", "db", "file")])
  const TRIED := Append(ANNOUNCED, "file", CreateAttempt("db"))
  const LOST := CreateDatabase(TRIED, "db")
  const REFUSED := Append(LOST, "file", CollisionRefused("db", 7))

  /** Two creations on one receipts file (one call writes an attempt or a refusal, never both): the first sends its
      CREATE and never learns the outcome, the second finds the name taken and is refused. The run's own database
      is there; cleanup settles its name without a drop, as somebody else's. */
  lemma CollisionHidesACreation()
    ensures var ws := [EMPTY, ANNOUNCED, TRIED, LOST, REFUSED];
            var acts := [Announce(Attempt("STEP", "db", "file")), Write("file", CreateAttempt("db")), CreateLost("db"),
                         Write("file", CollisionRefused("db", 7))];
            IsRun(ws, acts) && Fresh(ws[0])
    ensures REFUSED.created == map[7 := "db"] && CurrentOid(REFUSED, "db") == Some(7)
    ensures Judged(REFUSED, "db", "file") == Settled && Hidden(REFUSED, "db")
  {
    hide LinesOf; hide ReadReceipts; hide Judged; hide Judge; hide Hidden; hide Takes; hide Inv;
    TheFile();
    EmptyIsSound();
    TheSteps();
    TheName();
  }

  lemma TheSteps()
    ensures Takes(EMPTY, Announce(Attempt("STEP", "db", "file")), ANNOUNCED)
    ensures Takes(ANNOUNCED, Write("file", CreateAttempt("db")), TRIED)
    ensures Takes(TRIED, CreateLost("db"), LOST) && Takes(LOST, Write("file", CollisionRefused("db", 7)), REFUSED)
  {
    hide LinesOf; hide Judged; hide Judge; hide ReadReceipts;
    assert ANNOUNCED.attempted[0].name == "db";
    TheFile();
    assert TRIED.attempted[0].name == "db" && HasAttempt(TRIED, "db", TRIED.attempted[0].path);
    assert LOST.attempted[0].name == "db";
  }

  lemma TheName()
    ensures Hidden(REFUSED, "db")
  {
    var lines := LinesOf(REFUSED, "file");
    assert LinesOf(TRIED, "file") == [Receipt(1, CreateAttempt("db"))];
    assert lines == [Receipt(1, CreateAttempt("db")), Receipt(1, CollisionRefused("db", 7))];
    assert lines[1] == Receipt(1, CollisionRefused("db", 7));
    assert REFUSED.attempted[0].name == "db" && HasAttempt(REFUSED, "db", REFUSED.attempted[0].path);
  }

  lemma TheFile()
    ensures HasAttempt(TRIED, "db", "file") && Judged(REFUSED, "db", "file") == Settled
  {
    hide CreatedFor;
    var lines := LinesOf(REFUSED, "file");
    assert LinesOf(TRIED, "file") == [Receipt(1, CreateAttempt("db"))];
    assert lines == [Receipt(1, CreateAttempt("db")), Receipt(1, CollisionRefused("db", 7))];
    assert lines[1..] == [Receipt(1, CollisionRefused("db", 7))];
    assert lines[1..][1..] == [];
    assert [CollisionRefused("db", 7)] + [] == [CollisionRefused("db", 7)];
    assert ReadReceipts(lines[1..], 1) == ([CollisionRefused("db", 7)], false);
    assert [CreateAttempt("db")] + [CollisionRefused("db", 7)] == [CreateAttempt("db"), CollisionRefused("db", 7)];
    var records := ReadReceipts(lines, 1).0;
    assert records == [CreateAttempt("db"), CollisionRefused("db", 7)];
    assert records[1].CollisionRefused?;
    LeadingElement(CreatedFor(records, "db"));
  }

  lemma EmptyIsSound()
    ensures Inv(EMPTY)
  {
  }
}
