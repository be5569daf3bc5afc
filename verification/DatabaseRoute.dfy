/** The route's own steps on that server: creating fixtures, the test runner's owned creation and
    destruction, the guarded drop, and cleanup. Others act between any two of them, but not between a CREATE
    and the reading of the new oid, nor between the check of an oid and the DROP that follows it. */
module DatabaseRoute {
  import opened Prelude
  import opened DatabaseOwnership
  import opened DatabaseRuns

  datatype DropOutcome = AlreadyAbsent | Replaced | DroppedByRoute | StillPresent

  datatype CreateOutcome = CreateSucceeds | CreateFails | ReplyLost

  datatype CleanupOutcome = NothingToClean | Clean | NotClean

  /** Which calls raise while one name or fixture is cleaned up: reading the file or the server, or the guarded drop. */
  datatype Fault = Fault(read: bool, drop: bool)

  /** One record of cleanup: the state it started in, saw, re-read right before a drop and left, and its answer. */
  datatype Visit =
    | NameVisit(name: string, path: string, fault: Fault, before: World, seen: World, atDrop: World, after: World, resolved: bool)
    | FixtureVisit(fx: Fixture, fault: Fault, before: World, seen: World, after: World, resolved: bool)

  class Route {
    const nonce: nat
    var databases: map<string, Oid>
    var next: Oid
    var files: map<string, seq<Line>>
    var lifecycle: seq<Fixture>
    var attempted: seq<Attempt>
    ghost var created: map<Oid, string>
    ghost var confirmed: map<Oid, string>
    ghost var drops: seq<Drop>
    ghost var known: set<Oid>
    ghost var taken: set<Oid>

    ghost function View(): World
      reads this
    {
      World(nonce, databases, next, files, lifecycle, attempted, created, confirmed, drops, known, taken)
    }

    /** Any server, whose databases are all somebody else's. */
    constructor (nonce: nat, databases: map<string, Oid>, next: Oid)
      requires forall n | n in databases :: databases[n] < next
      requires forall n, m | n in databases && m in databases && databases[n] == databases[m] :: n == m
      ensures Fresh(View()) && this.databases == databases
    {
      this.nonce, this.databases, this.next := nonce, databases, next;
      files, lifecycle, attempted := map[], [], [];
      created, confirmed, drops, known, taken := map[], map[], [], databases.Values, {};
      new;
      assert forall o | o in known :: Alive(View(), o);
    }

    /** Other clients of the server, and other writers of files. A caller knows only what the contract says:
        anything others may do can have happened. */
    method Interfere()
      requires Inv(View())
      modifies this
      ensures Others(old(View()), View()) && Inv(View()) && Cleans(old(View()), View())
    {
      hide Inv; hide Cleaning; hide Reaches;
      ghost var w := View();
      NobodyActed(w);
      CleansSelf(w);
    }

    /** What the run itself keeps track of is not touched by others. */
    static lemma KeptByOthers(v: World, w: World)
      requires Others(v, w)
      ensures w == v.(databases := w.databases, next := w.next, files := w.files, known := w.known, taken := w.taken)
      ensures v.next <= w.next
    {
    }

    static lemma NobodyActed(w: World)
      requires Inv(w)
      ensures Others(w, w)
    {
    }

    /** `read_receipts`. */
    method ReadReceiptsOf(path: string) returns (records: seq<Event>, problem: bool)
      ensures (records, problem) == ReadReceipts(LinesOf(View(), path), nonce)
    {
      var lines := if path in files then files[path] else [];
      records := [];
      var n := 0;
      assert lines[0..] == lines && records + ReadReceipts(lines, nonce).0 == ReadReceipts(lines, nonce).0;
      while n < |lines|
        invariant 0 <= n <= |lines|
        invariant var (rest, bad) := ReadReceipts(lines[n..], nonce);
                  ReadReceipts(lines, nonce) == (records + rest, bad)
      {
        assert lines[n..][1..] == lines[n + 1..];
        ghost var rest := ReadReceipts(lines[n + 1..], nonce).0;
        var line := lines[n];
        n := n + 1;
        if line.Blank? { continue; }
        assert records + [] == records;
        if line.Garbage? || line.nonce != nonce { return records, true; }
        assert records + ([line.event] + rest) == (records + [line.event]) + rest;
        records := records + [line.event];
      }
      assert records + [] == records;
      return records, false;
    }

    /** `write_receipt`. */
    method WriteReceipt(path: string, e: Event)
      requires Inv(View()) && MayWrite(View(), path, e)
      modifies this`files
      ensures View() == Append(old(View()), path, e) && Inv(View()) && Reaches(old(View()), View())
    {
      hide Inv; hide MayWrite; hide Reaches;
      WriteKeeps(View(), path, e);
      WriteIsAStep(View(), path, e);
      files := files[path := (if path in files then files[path] else []) + [Receipt(nonce, e)]];
    }

    static lemma WriteIsAStep(w: World, path: string, e: Event)
      requires MayWrite(w, path, e)
      ensures Reaches(w, Append(w, path, e))
    {
      hide Reaches;
      ReachesNext(w, Write(path, e), Append(w, path, e));
    }

    /** `write_created_receipt`, outside any runner: for a confirmed fixture, into a file that does not exist yet. */
    method WriteCreatedReceipt(k: nat, path: string)
      requires Inv(View()) && k < |lifecycle| && lifecycle[k].state == Confirmed && lifecycle[k].oid.Some? && path !in files
      modifies this`files
      ensures Inv(View()) && Reaches(old(View()), View())
      ensures files == old(files)[path := [Receipt(nonce, Created(lifecycle[k].name, lifecycle[k].oid.value))]]
    {
      hide Inv; hide Reaches;
      assert lifecycle[k] in View().lifecycle;
      WriteReceipt(path, Created(lifecycle[k].name, lifecycle[k].oid.value));
      assert forall l: Line :: [] + [l] == [l];
    }

    function OidOf(name: string): Option<Oid>
      reads this
    {
      if name in databases then Some(databases[name]) else None
    }

    // -------------------------------------------------------------- the guarded drop

    /** `guarded_drop`: the only DROP of the route, asked for on the evidence of a record or a receipt. It drops
        exactly the database under `name` whose oid is the owned one, if that is what it finds, and reports the name
        as settled only when no database of the run is left under it. `seen` is what it found. */
    method GuardedDrop(name: string, owned: Oid) returns (outcome: DropOutcome, resolved: bool, ghost seen: World)
      requires Inv(View()) && Evidence(View(), name, owned)
      modifies this
      ensures Inv(View()) && Cleans(old(View()), View()) && Others(old(View()), seen)
      ensures drops == old(drops) + if CurrentOid(seen, name) == Some(owned) then [Drop(name, owned)] else []
      ensures if CurrentOid(seen, name) == Some(owned)
              then outcome in {DroppedByRoute, StillPresent} && Others(DropDatabase(seen, name), View())
                   && (outcome == DroppedByRoute <==> name !in databases)
              else View() == seen && outcome == if name in databases then Replaced else AlreadyAbsent
      ensures resolved <==> name !in databases
      ensures outcome != Replaced ==> NameClear(View(), name)
      ensures outcome == Replaced ==> !Alive(View(), owned)
    {
      hide Inv; hide Cleaning; hide NameClear; hide Reaches; hide Evidence; hide Others;
      ghost var w0 := View();
      EvidenceOwns(w0, name, owned);
      Interfere();
      ghost var w1 := View();
      seen := w1;
      KeptRecords(w0, w1);
      KeptByOthers(w0, w1);
      assert drops + [] == drops;
      EvidenceStays(w0, w1, name, owned);
      var current := OidOf(name);
      if current.None? {
        AbsentIsClear(w1, name);
        return AlreadyAbsent, true, w1;
      }
      if current.value != owned {
        ElsewhereNever(w1, name, owned);
        return Replaced, false, w1;
      }
      DropKeeps(w1, name);
      DropIsAStep(w1, name, owned);
      databases := databases - {name};
      drops := drops + [Drop(name, current.value)];
      ghost var w2 := View();
      CleansJoin(w0, w1, w2);
      Interfere();
      KeptByOthers(w2, View());
      CleansJoin(w0, w2, View());
      StaysClear(w2, View(), name);
      var gone := OidOf(name).None?;
      return if gone then DroppedByRoute else StillPresent, gone, w1;
    }

    static lemma KeptRecords(v: World, w: World)
      requires Cleaning(v, w)
      ensures w.confirmed == v.confirmed && w.lifecycle == v.lifecycle && w.attempted == v.attempted && w.nonce == v.nonce
    {
    }

    /** A confirmed database that is not under its creation name is gone. */
    static lemma ElsewhereNever(w: World, name: string, o: Oid)
      requires Inv(w) && o in w.confirmed && w.confirmed[o] == name && (name in w.databases ==> w.databases[name] != o)
      ensures !Alive(w, o)
    {
    }

    // -------------------------------------------------------------- creation

    /** `create_fixture`: the record is registered before any statement and always tells the truth. A result
        names a confirmed fixture whose database this call created; nothing is ever dropped. */
    method CreateFixture(step: string, name: string, connected: bool, outcome: CreateOutcome, survives: bool)
      returns (r: Option<nat>, ghost seen: World, ghost atCreate: World)
      requires Inv(View())
      modifies this
      ensures Inv(View()) && Reaches(old(View()), View()) && drops == old(drops) && |lifecycle| == |old(lifecycle)| + 1
      ensures lifecycle[..|old(lifecycle)|] == old(lifecycle) && attempted == old(attempted)
      ensures r.Some? ==> r.value == |old(lifecycle)| && lifecycle[r.value].state == Confirmed && lifecycle[r.value].name == name
                          && lifecycle[r.value].oid.Some? && old(next) <= lifecycle[r.value].oid.value
                          && lifecycle[r.value].oid.value in created && lifecycle[r.value].oid.value !in old(created)
      ensures r.None? ==> lifecycle[|old(lifecycle)|].state in {FixtureState.Attempted, NotCreated, CreateIssued, Exists}
      ensures r.None? ==> confirmed == old(confirmed)
      ensures lifecycle[|old(lifecycle)|].state in {FixtureState.Attempted, NotCreated} ==> created == old(created)
      ensures lifecycle[|old(lifecycle)|].state == Exists ==> exists o :: o in created && o !in old(created) && created[o] == name
      ensures var registered := Registered(old(View()), Fixture(step, name, FixtureState.Attempted, None));
              if !connected then View() == registered && r == None
              else Others(registered, seen) && |seen.lifecycle| == |old(lifecycle)| + 1
                   && if name in seen.databases then View() == Mark(seen, |old(lifecycle)|, NotCreated, None) && r == None
                      else Others(Mark(seen, |old(lifecycle)|, CreateIssued, None), atCreate)
                           && FixtureCreation(atCreate, |old(lifecycle)|, outcome, survives, View(), r)
    {
      hide Inv; hide Cleaning; hide NameClear; hide Reaches; hide Others; hide FixtureCreation;
      ghost var w0 := View();
      var k := |lifecycle|;
      Register(Fixture(step, name, FixtureState.Attempted, None));
      seen, atCreate := View(), View();
      if !connected { return None, seen, atCreate; }
      ghost var w1 := View();
      Interfere();
      KeptByOthers(w1, View());
      ghost var w2 := View();
      seen := w2;
      ReachesJoin(w0, w1, w2);
      if OidOf(name).Some? {
        SetState(k, NotCreated);
        ReachesJoin(w0, w2, View());
        return None, seen, atCreate;
      }
      AbsentIsClear(View(), name);
      SetState(k, CreateIssued);
      SameDatabases(w2, View(), name);
      ghost var w3 := View();
      ReachesJoin(w0, w2, w3);
      r, atCreate := IssueFixture(k, outcome, survives);
      ReachesJoin(w0, w3, View());
    }

    static ghost function Registered(w: World, f: Fixture): World { w.(lifecycle := w.lifecycle + [f]) }

    /** What CREATE leaves of the server and of its record: the name was taken meanwhile, the statement failed, its reply
        or the process was lost on the way, or the oid was read and confirmed. */
    static ghost predicate FixtureCreation(w: World, k: nat, outcome: CreateOutcome, survives: bool, v: World, r: Option<nat>) {
      k < |w.lifecycle|
      && var f := w.lifecycle[k];
      if f.name in w.databases then v == Mark(w, k, NotCreated, f.oid) && r == None
      else if outcome == CreateFails then v == w && r == None
      else if outcome == ReplyLost then v == CreateDatabase(w, f.name) && r == None
      else if !survives then v == Mark(CreateDatabase(w, f.name), k, Exists, f.oid) && r == None
      else v == FixtureCreated(w, k) && r == Some(k)
    }

    method Register(f: Fixture)
      requires Inv(View()) && f.state == Attempted
      modifies this`lifecycle
      ensures Inv(View()) && lifecycle == old(lifecycle) + [f] && Reaches(old(View()), View())
    {
      hide Inv; hide Reaches;
      ghost var w := View();
      RegisterKeeps(w, f);
      lifecycle := lifecycle + [f];
      ReachesNext(w, Action.Register(f), View());
    }

    /** From CREATE DATABASE on. The record must already say that it was issued. */
    method IssueFixture(k: nat, outcome: CreateOutcome, survives: bool) returns (r: Option<nat>, ghost atCreate: World)
      requires Inv(View()) && k < |lifecycle| && lifecycle[k].state == CreateIssued && lifecycle[k].oid == None
      requires NameClear(View(), lifecycle[k].name)
      modifies this
      ensures Inv(View()) && Reaches(old(View()), View()) && drops == old(drops) && attempted == old(attempted)
      ensures |lifecycle| == |old(lifecycle)| && lifecycle == old(lifecycle)[k := lifecycle[k]]
      ensures lifecycle[k].name == old(lifecycle)[k].name
      ensures r.Some? ==> r.value == k && lifecycle[k].state == Confirmed && lifecycle[k].oid.Some?
                          && old(next) <= lifecycle[k].oid.value
                          && lifecycle[k].oid.value in created && lifecycle[k].oid.value !in old(created)
      ensures r.None? ==> lifecycle[k].state in {NotCreated, CreateIssued, Exists} && confirmed == old(confirmed)
      ensures lifecycle[k].state == NotCreated ==> created == old(created)
      ensures lifecycle[k].state == Exists ==> exists o :: o in created && o !in old(created) && created[o] == lifecycle[k].name
      ensures Others(old(View()), atCreate) && FixtureCreation(atCreate, k, outcome, survives, View(), r)
    {
      hide Inv; hide Cleaning; hide Others; hide NameClear; hide Reaches;
      var name := lifecycle[k].name;
      ghost var w0 := View();
      Interfere();  // the name can be taken between the check and the CREATE
      ghost var w1 := View();
      KeptByOthers(w0, w1);
      StaysClear(w0, w1, name);
      atCreate := w1;
      if OidOf(name).Some? {
        SetState(k, NotCreated);
        ReachesJoin(w0, w1, View());
        return None, atCreate;
      }
      r := SendFixture(k, outcome, survives);
      ReachesJoin(w0, w1, View());
    }

    /** The CREATE of a free name and, if nothing gets lost, the reading of the new oid. */
    method SendFixture(k: nat, outcome: CreateOutcome, survives: bool) returns (r: Option<nat>)
      requires Inv(View()) && k < |lifecycle| && lifecycle[k].state == CreateIssued && lifecycle[k].oid == None
      requires lifecycle[k].name !in databases
      modifies this`lifecycle, this`databases, this`next, this`created, this`confirmed, this`known
      ensures Inv(View()) && Reaches(old(View()), View())
      ensures |lifecycle| == |old(lifecycle)| && lifecycle == old(lifecycle)[k := lifecycle[k]]
      ensures lifecycle[k].name == old(lifecycle)[k].name
      ensures r.Some? ==> r.value == k && lifecycle[k].state == Confirmed && lifecycle[k].oid == Some(old(next))
                          && old(next) in created && old(next) !in old(created)
      ensures r.None? ==> lifecycle[k].state in {CreateIssued, Exists} && confirmed == old(confirmed)
      ensures lifecycle[k].state == Exists ==> exists o :: o in created && o !in old(created) && created[o] == lifecycle[k].name
      ensures FixtureCreation(old(View()), k, outcome, survives, View(), r)
    {
      hide Inv; hide Reaches; hide Traced; hide OwnUnconfirmed; hide Recorded; hide NameClear;
      var name := lifecycle[k].name;
      ghost var w := View();
      IssuedIsTraced(w, k);
      SendCreate(name, outcome);
      if outcome == CreateFails {
        ReachesSelf(w);
        return None;
      }
      ghost var v := View();
      ReachesNext(w, CreateLost(name), v);
      if outcome == ReplyLost { return None; }
      SetState(k, Exists);
      ReachesJoin(w, v, View());
      OwnStays(View(), v, name);
      if !survives { return None; }
      r := ConfirmFixture(k);
      assert View() == FixtureCreated(w, k);
      ReachesNext(w, Action.CreateFixture(k), View());
    }

    /** CREATE DATABASE of a free name: it fails, or makes a database under a new oid, even if the reply is lost. */
    method SendCreate(name: string, outcome: CreateOutcome)
      requires Inv(View()) && name !in databases && Traced(View(), name)
      modifies this`databases, this`next, this`created, this`known
      ensures Inv(View()) && View() == if outcome == CreateFails then old(View()) else CreateDatabase(old(View()), name)
      ensures outcome != CreateFails ==> OwnUnconfirmed(View(), name) && old(next) !in old(created)
    {
      hide Inv; hide Traced; hide OwnUnconfirmed;
      if outcome == CreateFails { return; }
      OidsBelowNext(View());
      CreateKeeps(View(), name);
      databases, next, created, known := databases[name := next], next + 1, created[next := name], known + {next};
    }

    static lemma SameDatabases(v: World, w: World, name: string)
      requires NameClear(v, name) && w.databases == v.databases && w.created == v.created
      ensures NameClear(w, name)
    {
      forall o | Alive(w, o) ensures Alive(v, o) { var n :| n in w.databases && w.databases[n] == o; }
    }

    static lemma OwnStays(v: World, w: World, name: string)
      requires OwnUnconfirmed(w, name) && v.databases == w.databases && v.created == w.created && v.confirmed == w.confirmed
      ensures OwnUnconfirmed(v, name)
    {
    }

    static lemma OidsBelowNext(w: World)
      requires Inv(w)
      ensures forall o | o in w.created :: o < w.next
    {
    }

    /** The oid read right after CREATE is the created database's. */
    method ConfirmFixture(k: nat) returns (r: Option<nat>)
      requires Inv(View()) && k < |lifecycle| && lifecycle[k].state != Confirmed
      requires OwnUnconfirmed(View(), lifecycle[k].name)
      modifies this`lifecycle, this`confirmed
      ensures Inv(View()) && r == Some(k)
      ensures var name := old(lifecycle)[k].name;
              View() == Mark(Confirm(old(View()), name), k, Confirmed, Some(databases[name]))
    {
      hide Inv;
      var name := lifecycle[k].name;
      FixtureConfirms(View(), k);
      var oid := databases[name];
      lifecycle := lifecycle[k := lifecycle[k].(state := Confirmed, oid := Some(oid))];
      confirmed := confirmed[oid := name];
      return Some(k);
    }

    /** The route notes on a record what it has learnt. */
    method SetState(k: nat, state: FixtureState)
      requires Inv(View()) && k < |lifecycle| && MayNote(View(), k, state)
      modifies this`lifecycle
      ensures Inv(View()) && lifecycle == old(lifecycle)[k := old(lifecycle)[k].(state := state)]
      ensures Reaches(old(View()), View())
    {
      hide Inv; hide NameClear; hide MayNote; hide Reaches;
      ghost var w := View();
      lifecycle := lifecycle[k := lifecycle[k].(state := state)];
      assert View() == Mark(w, k, state, w.lifecycle[k].oid);
      NoteKeeps(w, Note(k, state), View());
      ReachesNext(w, Note(k, state), View());
    }

    /** A check step's own drop of a fixture, recorded on the fixture when it succeeded. */
    method DropFixture(k: nat) returns (dropped: bool)
      requires Inv(View()) && k < |lifecycle| && lifecycle[k].state == Confirmed && lifecycle[k].oid.Some?
      modifies this
      ensures Inv(View()) && Reaches(old(View()), View())
      ensures |lifecycle| == |old(lifecycle)| && (lifecycle[k].state == Dropped <==> dropped)
      ensures drops == old(drops) || drops == old(drops) + [Drop(old(lifecycle)[k].name, old(lifecycle)[k].oid.value)]
      ensures dropped ==> drops != old(drops) && NameClear(View(), lifecycle[k].name)
    {
      hide Inv; hide Cleaning; hide NameClear; hide Reaches; hide Others;
      var fx := lifecycle[k];
      ghost var w := View();
      assert IsRecordOf(w.lifecycle[k], fx.name, fx.oid.value);
      assert Evidence(w, fx.name, fx.oid.value);
      var outcome, resolved; ghost var seen;
      outcome, resolved, seen := GuardedDrop(fx.name, fx.oid.value);
      ghost var v := View();
      KeptRecords(w, v);
      assert drops == old(drops) + [] || drops == old(drops) + [Drop(fx.name, fx.oid.value)];
      assert old(drops) + [] == old(drops);
      dropped := resolved && outcome == DroppedByRoute;
      if dropped {
        SetState(k, Dropped);
        ReachesJoin(w, v, View());
        SameDatabases(v, View(), fx.name);
      }
    }

    /** The route announces the receipts file of a step before it starts the runner. */
    method Announce(step: string, name: string, path: string)
      requires Inv(View())
      modifies this`attempted
      ensures Inv(View()) && Reaches(old(View()), View()) && attempted == old(attempted) + [Attempt(step, name, path)]
    {
      hide Inv; hide Reaches;
      ghost var w := View();
      AttemptKeeps(w, Attempt(step, name, path));
      attempted := attempted + [Attempt(step, name, path)];
      ReachesNext(w, Action.Announce(Attempt(step, name, path)), View());
    }

    /** `_create_test_db`: refuses a name in use, writes the attempt before CREATE and the creation receipt only
        after it, and never drops anything. The process may die before the creation receipt. */
    method CreateTestDatabase(name: string, path: string, keepdb: bool, outcome: CreateOutcome, survives: bool)
      returns (made: bool, ghost seen: World, ghost atCreate: World)
      requires Inv(View()) && MayCreate(View(), name, path)
      modifies this
      ensures Inv(View()) && Reaches(old(View()), View())
      ensures drops == old(drops) && lifecycle == old(lifecycle) && attempted == old(attempted)
      ensures made ==> exists o :: o in confirmed && o !in old(created) && old(next) <= o && confirmed[o] == name
                                   && Receipt(nonce, Created(name, o)) in LinesOf(View(), path)
      ensures !made ==> confirmed == old(confirmed)
      ensures if keepdb then View() == old(View()) && !made
              else Others(old(View()), seen)
                   && if name in seen.databases
                      then View() == Append(seen, path, CollisionRefused(name, seen.databases[name])) && !made
                      else Others(Append(seen, path, CreateAttempt(name)), atCreate)
                           && TestCreation(atCreate, name, path, outcome, survives, View(), made)
    {
      hide Inv; hide Cleaning; hide Reaches; hide Others; hide MayCreate; hide TestCreation;
      ghost var w0 := View();
      seen, atCreate := w0, w0;
      if keepdb {
        ReachesSelf(w0);
        return false, seen, atCreate;
      }
      Interfere();
      ghost var w1 := View();
      KeptByOthers(w0, w1);
      seen := w1;
      SameRecords(w0, w1, name, path);
      var existing := OidOf(name);
      if existing.Some? {
        WriteReceipt(path, CollisionRefused(name, existing.value));
        ReachesJoin(w0, w1, View());
        return false, seen, atCreate;
      }
      WriteReceipt(path, CreateAttempt(name));
      ghost var w2 := View();
      ReachesJoin(w0, w1, w2);
      SameRecords(w1, w2, name, path);
      made, atCreate := IssueDatabase(name, path, outcome, survives);
      ReachesJoin(w0, w2, View());
    }

    /** What CREATE leaves, and the creation receipt if nothing got lost. */
    static ghost predicate TestCreation(w: World, name: string, path: string, outcome: CreateOutcome, survives: bool, v: World,
                                        made: bool) {
      if name in w.databases || outcome == CreateFails then v == w && !made
      else if outcome == ReplyLost || !survives then v == CreateDatabase(w, name) && !made
      else v == TestCreated(w, name, path) && made
    }

    /** From CREATE DATABASE on: nothing is dropped when another client took the name meanwhile. */
    method IssueDatabase(name: string, path: string, outcome: CreateOutcome, survives: bool)
      returns (made: bool, ghost atCreate: World)
      requires Inv(View()) && MayCreate(View(), name, path) && HasAttempt(View(), name, path)
      modifies this
      ensures Inv(View()) && Reaches(old(View()), View())
      ensures drops == old(drops) && lifecycle == old(lifecycle) && attempted == old(attempted)
      ensures made ==> exists o :: o in confirmed && o !in old(created) && old(next) <= o && confirmed[o] == name
                                   && Receipt(nonce, Created(name, o)) in LinesOf(View(), path)
      ensures !made ==> confirmed == old(confirmed)
      ensures Others(old(View()), atCreate) && TestCreation(atCreate, name, path, outcome, survives, View(), made)
    {
      hide Inv; hide Cleaning; hide Others; hide Reaches; hide MayCreate; hide HasAttempt;
      ghost var w0 := View();
      Interfere();
      ghost var w1 := View();
      KeptByOthers(w0, w1);
      atCreate := w1;
      SameRecords(w0, w1, name, path);
      AttemptStays(w0, w1, name, path);
      if OidOf(name).Some? { return false, atCreate; }
      made := SendDatabase(name, path, outcome, survives);
      ReachesJoin(w0, w1, View());
    }

    /** The CREATE of a free name and, if nothing gets lost, its creation receipt. */
    method SendDatabase(name: string, path: string, outcome: CreateOutcome, survives: bool) returns (made: bool)
      requires Inv(View()) && MayCreate(View(), name, path) && HasAttempt(View(), name, path) && name !in databases
      modifies this`files, this`databases, this`next, this`created, this`confirmed, this`known
      ensures Inv(View()) && Reaches(old(View()), View())
      ensures made ==> old(next) in confirmed && old(next) !in old(created) && confirmed[old(next)] == name
                       && Receipt(nonce, Created(name, old(next))) in LinesOf(View(), path)
      ensures !made ==> confirmed == old(confirmed)
      ensures TestCreation(old(View()), name, path, outcome, survives, View(), made)
    {
      hide Inv; hide Reaches; hide Traced; hide OwnUnconfirmed; hide Recorded; hide MayCreate; hide HasAttempt; hide HasFile;
      hide HasFixture;
      ghost var w := View();
      MayCreateIsTraced(w, name, path);
      MayCreateIsRecorded(w, name, path);
      SendCreate(name, outcome);
      if outcome == CreateFails {
        ReachesSelf(w);
        return false;
      }
      ghost var v := View();
      ReachesNext(w, CreateLost(name), v);
      if outcome == ReplyLost || !survives { return false; }
      SameRecords(w, v, name, path);
      WriteCreated(name, path);
      assert View() == TestCreated(w, name, path);
      ReachesNext(w, CreateTest(name, path), View());
      return true;
    }

    /** The oid read right after CREATE goes into the creation receipt, which confirms it. */
    method WriteCreated(name: string, path: string)
      requires Inv(View()) && OwnUnconfirmed(View(), name) && (HasFile(View(), path) || HasFixture(View(), name))
      modifies this`files, this`confirmed
      ensures Inv(View()) && View() == Append(Confirm(old(View()), name), path, Created(name, databases[name]))
    {
      hide Inv;
      ghost var w := View();
      var oid := databases[name];
      ReceiptConfirms(w, name, path);
      confirmed := confirmed[oid := name];
      files := files[path := (if path in files then files[path] else []) + [Receipt(nonce, Created(name, oid))]];
    }

    /** `_destroy_test_db`: drops the database exactly when its current oid is the one in the last creation receipt
        of a readable file. `seen` is what it found. */
    method DestroyTestDatabase(name: string, path: string) returns (dropped: bool, ghost seen: World, ghost after: World)
      requires Inv(View())
      modifies this
      ensures Inv(View()) && Reaches(old(View()), View()) && confirmed == old(confirmed)
      ensures Others(old(View()), seen) && (dropped <==> Judged(seen, name, path).MayDrop?)
      ensures drops == old(drops) + if dropped then [Drop(name, Judged(seen, name, path).oid)] else []
      ensures !dropped ==> View() == Append(seen, path, DestroyRefused(name, CurrentOid(seen, name)))
      ensures dropped ==> name in seen.databases && Others(DropDatabase(seen, name), after)
                          && View() == Append(after, path, Destroyed(name, seen.databases[name], name !in after.databases))
    {
      hide Inv; hide Cleaning; hide NameClear; hide ReadReceipts; hide CreatedFor; hide Reaches; hide Others;
      ghost var w0 := View();
      Interfere();
      ghost var w1 := View();
      seen, after := w1, w1;
      KeptByOthers(w0, w1);
      var records, problem := ReadReceiptsOf(path);
      var receipts := CreatedFor(records, name);
      var current := OidOf(name);
      if problem || receipts == [] || current.None? || current.value != receipts[|receipts| - 1].oid {
        WriteReceipt(path, DestroyRefused(name, current));
        ReachesJoin(w0, w1, View());
        return false, w1, w1;
      }
      MayDropIsOwned(w1, name, path);
      DropKeeps(w1, name);
      databases := databases - {name};
      drops := drops + [Drop(name, current.value)];
      ghost var w2 := View();
      ReachesStep(w0, w1, DropOnReceipt(name, path), w2);
      Interfere();
      KeptByOthers(w2, View());
      ReachesJoin(w0, w2, View());
      ghost var w3 := View();
      WriteReceipt(path, Destroyed(name, current.value, OidOf(name).None?));
      ReachesJoin(w0, w3, View());
      return true, w1, w3;
    }

    // -------------------------------------------------------------- cleanup

    /** What the guarded drop left, for the state it saw: the owned database dropped, or everything as it was. */
    static ghost predicate DropDone(seen: World, name: string, owned: Oid, v: World) {
      if CurrentOid(seen, name) == Some(owned) then Others(DropDatabase(seen, name), v) else v == seen
    }

    /** What `cleanup_one` did when nothing raised: it acted on what the file and the server showed at `seen`, and
        re-read the oid at `atDrop` right before a drop. */
    static ghost predicate CleanedUp(seen: World, name: string, path: string, atDrop: World, v: World, resolved: bool) {
      match Judged(seen, name, path)
      case Settled => v == seen && resolved
      case Unresolved => v == seen && !resolved
      case MayDrop(owned) => Others(seen, atDrop) && DropDone(atDrop, name, owned, v) && (resolved <==> name !in v.databases)
    }

    /** `cleanup_one`: what it must do, and that a name with a creation receipt in the file, or with no refused
        collision, is resolved only when it is settled. Reading the file or the server may raise, and so may the
        guarded drop, before or after its DROP. */
    method CleanupOne(name: string, path: string, readRaises: bool, dropRaises: bool)
      returns (resolved: bool, ghost seen: World, ghost atDrop: World)
      requires Inv(View())
      modifies this
      ensures Inv(View()) && Cleans(old(View()), View()) && Others(old(View()), seen)
      ensures readRaises ==> View() == seen && !resolved
      ensures !readRaises && !(dropRaises && Judged(seen, name, path).MayDrop?) ==>
                CleanedUp(seen, name, path, atDrop, View(), resolved)
      ensures dropRaises && Judged(seen, name, path).MayDrop? ==> !resolved
      ensures resolved && (HasReceipt(old(View()), name, path) || !HasCollision(old(View()), path)) ==> NameClear(View(), name)
    {
      hide Inv; hide Cleaning; hide NameClear; hide ReadReceipts; hide CreatedFor; hide Reaches; hide Others; hide Evidence;
      hide HasReceipt; hide HasCollision; hide CollisionShown;
      ghost var w0 := View();
      Interfere();
      ghost var w1 := View();
      SameReceipts(w0, w1, path);
      seen, atDrop := w1, w1;
      if readRaises { return false, w1, w1; }
      var records, problem := ReadReceiptsOf(path);
      if problem { return false, w1, w1; }
      FileShows(w1, name, path);
      var receipts := CreatedFor(records, name);
      var current := OidOf(name);
      if current.None? { AbsentIsClear(w1, name); }
      if receipts == [] {
        var issued := exists e :: e in records && e == CreateAttempt(name);
        var collided := CollisionShown(records);
        if current.None? { return true, w1, w1; }
        if issued && !collided { return false, w1, w1; }
        return collided, w1, w1;
      }
      var owned := receipts[|receipts| - 1].oid;
      if current.None? { return true, w1, w1; }
      if current.value != owned { return false, w1, w1; }
      ReceiptEntitles(w1, name, path);
      var early: bool := *;
      if dropRaises && early { return false, w1, w1; }
      var outcome;
      outcome, resolved, atDrop := GuardedDrop(name, owned);
      CleansJoin(w0, w1, View());
      if dropRaises { return false, w1, atDrop; }
    }

    static lemma ReceiptEntitles(w: World, name: string, path: string)
      requires Inv(w) && Judged(w, name, path).MayDrop?
      ensures Evidence(w, name, Judged(w, name, path).oid)
    {
      hide Inv; hide Judged;
      MayDropIsOwned(w, name, path);
    }

    /** `cleanup_fixture`: a confirmed fixture that is there is dropped, one whose creation was never confirmed is
        only looked for. Resolved for a fixture still to be cleaned up means its name is settled. */
    method CleanupFixture(fx: Fixture, raises: bool) returns (resolved: bool, ghost seen: World)
      requires Inv(View()) && fx in lifecycle
      modifies this
      ensures Inv(View()) && Cleans(old(View()), View()) && Others(old(View()), seen)
      ensures raises && Tracks(fx) ==> !resolved
      ensures !raises && fx.state == Confirmed ==> fx.oid.Some? && DropDone(seen, fx.name, fx.oid.value, View())
      ensures fx.state != Confirmed ==> View() == seen
      ensures !raises || !Tracks(fx) ==> (resolved <==> !Tracks(fx) || fx.name !in databases)
      ensures resolved && Tracks(fx) ==> NameClear(View(), fx.name)
    {
      hide Inv; hide Cleaning; hide NameClear; hide Reaches; hide Others; hide Evidence;
      ghost var w := View();
      if fx.state in {Dropped, NotCreated, FixtureState.Attempted} {
        Interfere();
        return true, View();
      }
      if fx.state == Confirmed {
        RecordEntitles(w, fx);
        var early: bool := *;
        if raises && early {
          Interfere();
          return false, View();
        }
        var outcome;
        outcome, resolved, seen := GuardedDrop(fx.name, fx.oid.value);
        return resolved && !raises, seen;
      }
      Interfere();
      if OidOf(fx.name).None? { AbsentIsClear(View(), fx.name); }
      return !raises && OidOf(fx.name).None?, View();
    }

    static lemma RecordEntitles(w: World, fx: Fixture)
      requires Inv(w) && fx in w.lifecycle && fx.state == Confirmed
      ensures fx.oid.Some? && Evidence(w, fx.name, fx.oid.value)
    {
      hide AllCovered; hide Traceable; hide Accounted;
      var k :| 0 <= k < |w.lifecycle| && w.lifecycle[k] == fx;
      assert IsRecordOf(w.lifecycle[k], fx.name, fx.oid.value);
    }

    // -------------------------------------------------------------- the whole of cleanup

    /** What `cleanup_one` and `cleanup_fixture` promise of one visit. */
    static ghost predicate VisitOk(x: Visit) {
      match x
      case NameVisit(name, path, fault, before, seen, atDrop, after, resolved) =>
        var mayDrop := Judged(seen, name, path).MayDrop?;
        && Others(before, seen)
        && (fault.read ==> after == seen && !resolved)
        && (!fault.read && !(fault.drop && mayDrop) ==> CleanedUp(seen, name, path, atDrop, after, resolved))
        && (fault.drop && mayDrop ==> !resolved)
      case FixtureVisit(fx, fault, before, seen, after, resolved) =>
        && Others(before, seen)
        && ((fault.read || fault.drop) && Tracks(fx) ==> !resolved)
        && (!(fault.read || fault.drop) && fx.state == Confirmed ==> fx.oid.Some? && DropDone(seen, fx.name, fx.oid.value, after))
        && (fx.state != Confirmed ==> after == seen)
        && (!(fault.read || fault.drop) || !Tracks(fx) ==> (resolved <==> !Tracks(fx) || fx.name !in after.databases))
    }

    static function At(w: World, visits: seq<Visit>, k: nat): World
      requires k <= |visits|
    {
      if k == 0 then w else visits[k - 1].after
    }

    /** The visits in order, from w to v, with others acting before each of them. */
    static ghost predicate Chain(w: World, visits: seq<Visit>, v: World) {
      && (forall k | 0 <= k < |visits| :: VisitOk(visits[k]) && Others(At(w, visits, k), visits[k].before))
      && v == At(w, visits, |visits|)
    }

    static lemma ChainNext(w: World, visits: seq<Visit>, v: World, x: Visit)
      requires Chain(w, visits, v) && VisitOk(x) && Others(v, x.before)
      ensures Chain(w, visits + [x], x.after)
    {
      hide VisitOk; hide Others;
      var more := visits + [x];
      forall k | 0 <= k < |more| ensures VisitOk(more[k]) && Others(At(w, more, k), more[k].before) {
        assert At(w, more, k) == At(w, visits, k);
        if k < |visits| { assert more[k] == visits[k]; }
      }
    }

    static lemma ChainJoin(u: World, a: seq<Visit>, v: World, b: seq<Visit>, w: World)
      requires Chain(u, a, v) && Chain(v, b, w)
      ensures Chain(u, a + b, w)
    {
      hide VisitOk; hide Others;
      hide At;
      var c := a + b;
      AtJoin(u, a, v, b, |c|);
      forall k | 0 <= k < |c| ensures VisitOk(c[k]) && Others(At(u, c, k), c[k].before) {
        AtJoin(u, a, v, b, k);
        assert if k < |a| then c[k] == a[k] else c[k] == b[k - |a|];
      }
    }

    static lemma AtJoin(u: World, a: seq<Visit>, v: World, b: seq<Visit>, k: nat)
      requires v == At(u, a, |a|) && k <= |a + b|
      ensures At(u, a + b, k) == if k <= |a| then At(u, a, k) else At(v, b, k - |a|)
      ensures k == |a| ==> At(u, a + b, k) == At(v, b, 0)
    {
    }

    static predicate AllResolved(visits: seq<Visit>) { forall x | x in visits :: x.resolved }

    static lemma ResolvedJoin(a: seq<Visit>, b: seq<Visit>)
      ensures AllResolved(a + b) <==> AllResolved(a) && AllResolved(b)
    {
      assert forall x | x in a :: x in a + b;
      assert forall x | x in b :: x in a + b;
    }

    /** The visits raise as `faults` says, from its n-th entry on. */
    static predicate Faulted(visits: seq<Visit>, faults: nat -> Fault, n: nat) {
      forall k | 0 <= k < |visits| :: visits[k].fault == faults(n + k)
    }

    static lemma FaultedJoin(a: seq<Visit>, b: seq<Visit>, faults: nat -> Fault, n: nat)
      requires Faulted(a, faults, n) && Faulted(b, faults, n + |a|)
      ensures Faulted(a + b, faults, n)
    {
      forall k | 0 <= k < |a + b| ensures (a + b)[k].fault == faults(n + k) {
        if k >= |a| { assert (a + b)[k] == b[k - |a|]; }
      }
    }

    /** The names visited for one file, as it was read first: the announced one, then once each every name with a creation
        receipt in it; only the announced one when a line is not the run's own. */
    static ghost predicate FileVisited(w: World, a: Attempt, names: seq<string>) {
      && names != [] && names[0] == a.name && Distinct(names)
      && (forall k | 0 < k < |names| :: AllOwn(LinesOf(w, a.path), w.nonce) && HasReceipt(w, names[k], a.path))
      && (AllOwn(LinesOf(w, a.path), w.nonce) ==> forall n | HasReceipt(w, n, a.path) :: n in names)
    }

    static ghost predicate VisitsOf(visits: seq<Visit>, names: seq<string>, path: string) {
      |visits| == |names| && forall k | 0 <= k < |names| :: visits[k].NameVisit? && visits[k].name == names[k] && visits[k].path == path
    }

    /** `cleanup_receipt_file`: the announced name and every name with a creation receipt in the file. */
    method CleanupReceiptFile(a: Attempt, faults: nat -> Fault, n: nat)
      returns (resolved: bool, names: seq<string>, ghost read: World, ghost visits: seq<Visit>)
      requires Inv(View())
      modifies this
      ensures Inv(View()) && Cleans(old(View()), View())
      ensures Others(old(View()), read) && Chain(read, visits, View()) && Faulted(visits, faults, n)
      ensures FileVisited(read, a, names) && VisitsOf(visits, names, a.path) && (resolved <==> AllResolved(visits))
      ensures visits != [] && visits[0].before == read
      ensures resolved ==> forall m | HasReceipt(old(View()), m, a.path) :: NameClear(View(), m)
      ensures resolved && !HasCollision(old(View()), a.path) ==> NameClear(View(), a.name)
    {
      hide Inv; hide Cleaning; hide NameClear; hide ReadReceipts; hide HasReceipt; hide HasCollision; hide Reaches; hide Others;
      hide CleanedUp; hide Chain; hide Faulted; hide VisitsOf; hide FileVisited; hide AllResolved;
      ghost var w0 := View();
      Interfere();
      ghost var w1 := View();
      read := w1;
      var records, problem := ReadReceiptsOf(a.path);
      OwnIff(w1, a.path);
      names := if problem then [a.name] else NamesIn(a.name, records);
      NamesAre(w1, a, names);
      resolved, visits := CleanupNames(names, a.path, faults, n);
      SameReceipts(w0, w1, a.path);
      CleansJoin(w0, w1, View());
      if problem {
        UnreadableStays(visits, names, a.path, w1, View());
      } else {
        NamesCover(w1, a, names);
      }
    }

    /** `dict.fromkeys` over the announced name and the names of the creation receipts. */
    static function NamesIn(first: string, records: seq<Event>): (r: seq<string>)
      ensures r != [] && r[0] == first && Distinct(r)
      ensures forall x :: x in r <==> x == first || exists e :: e in records && e.Created? && e.name == x
    {
      if records == [] then [first]
      else
        var front, e := records[..|records| - 1], records[|records| - 1];
        var r := NamesIn(first, front);
        assert records == front + [e];
        if e.Created? && e.name !in r then r + [e.name] else r
    }

    static lemma OwnIff(w: World, path: string)
      ensures ReadReceipts(LinesOf(w, path), w.nonce).1 <==> !AllOwn(LinesOf(w, path), w.nonce)
    {
      ReceiptsAreComplete(LinesOf(w, path), w.nonce);
    }

    static lemma NamesAre(w: World, a: Attempt, names: seq<string>)
      requires var (records, problem) := ReadReceipts(LinesOf(w, a.path), w.nonce);
               names == if problem then [a.name] else NamesIn(a.name, records)
      ensures FileVisited(w, a, names)
    {
      hide ReadReceipts; hide NamesIn;
      OwnIff(w, a.path);
      ReceiptsAreComplete(LinesOf(w, a.path), w.nonce);
      var (records, problem) := ReadReceipts(LinesOf(w, a.path), w.nonce);
      if !problem {
        forall k | 0 < k < |names| ensures HasReceipt(w, names[k], a.path) {
          assert names[k] in names && names[k] != a.name;
          var e :| e in records && e.Created? && e.name == names[k];
          assert Receipt(w.nonce, Created(names[k], e.oid)) in LinesOf(w, a.path);
        }
        AllNamed(w, a.path, names);
      }
    }

    static lemma NamesCover(w: World, a: Attempt, names: seq<string>)
      requires FileVisited(w, a, names) && AllOwn(LinesOf(w, a.path), w.nonce)
      ensures a.name == names[0] && forall n | HasReceipt(w, n, a.path) :: exists x :: 0 <= x < |names| && names[x] == n
    {
      hide HasReceipt; hide AllOwn;
    }

    /** A file with a line that is not the run's own never becomes readable again, so its visit is not resolved. */
    static lemma UnreadableStays(visits: seq<Visit>, names: seq<string>, path: string, w: World, v: World)
      requires Chain(w, visits, v) && VisitsOf(visits, names, path) && names != []
      requires ReadReceipts(LinesOf(w, path), w.nonce).1
      ensures !AllResolved(visits)
    {
      hide ReadReceipts; hide Others; hide Judge;
      var x := visits[0];
      assert VisitOk(x) && Others(w, x.before);
      ProblemStays(w, x.before, path);
      ProblemStays(x.before, x.seen, path);
      assert x in visits && Judged(x.seen, x.name, path) == Unresolved;
    }

    static lemma ProblemStays(v: World, w: World, path: string)
      requires Others(v, w) && ReadReceipts(LinesOf(v, path), v.nonce).1
      ensures ReadReceipts(LinesOf(w, path), w.nonce).1
    {
      OthersKeepFiles(v, w);
      ReceiptsAreComplete(LinesOf(v, path), v.nonce);
      ReceiptsAreComplete(LinesOf(w, path), w.nonce);
    }

    /** The names of one file, in turn. */
    method CleanupNames(names: seq<string>, path: string, faults: nat -> Fault, n: nat)
      returns (resolved: bool, ghost visits: seq<Visit>)
      requires Inv(View())
      modifies this
      ensures Inv(View()) && Cleans(old(View()), View())
      ensures Chain(old(View()), visits, View()) && Faulted(visits, faults, n) && VisitsOf(visits, names, path)
      ensures (resolved <==> AllResolved(visits)) && (names != [] ==> visits != [] && visits[0].before == old(View()))
      ensures resolved ==> forall x | 0 <= x < |names| && (HasReceipt(old(View()), names[x], path) || !HasCollision(old(View()), path)) ::
                             NameClear(View(), names[x])
    {
      hide Inv; hide Cleaning; hide NameClear; hide HasReceipt; hide HasCollision; hide Reaches; hide Others; hide CleanedUp;
      hide Chain; hide VisitOk; hide Judged;
      ghost var w1 := View();
      resolved, visits := true, [];
      CleansSelf(w1);
      ChainStart(w1);
      for i := 0 to |names|
        invariant Inv(View()) && Cleans(w1, View())
        invariant Chain(w1, visits, View()) && Faulted(visits, faults, n) && VisitsOf(visits, names[..i], path)
        invariant (resolved <==> AllResolved(visits)) && (i > 0 ==> visits != [] && visits[0].before == w1)
        invariant i == 0 ==> View() == w1
        invariant resolved ==> forall x | 0 <= x < i && (HasReceipt(w1, names[x], path) || !HasCollision(w1, path)) ::
                                 NameClear(View(), names[x])
      {
        ghost var w := View();
        var one; ghost var x;
        one, x := VisitName(names[i], path, faults(n + i));
        SameReceipts(w1, w, path);
        ManyStayClear(w, View(), names);
        CleansJoin(w1, w, View());
        NobodyActed(w);
        ChainNext(w1, visits, w, x);
        ResolvedJoin(visits, [x]);
        visits := visits + [x];
        resolved := resolved && one;
      }
      assert names[..|names|] == names;
    }

    static lemma ChainStart(w: World)
      ensures Chain(w, [], w)
    {
    }

    /** One name, as one record. */
    method VisitName(name: string, path: string, fault: Fault) returns (resolved: bool, ghost x: Visit)
      requires Inv(View())
      modifies this
      ensures Inv(View()) && Cleans(old(View()), View())
      ensures x.NameVisit? && x.name == name && x.path == path && x.fault == fault && x.resolved == resolved
      ensures VisitOk(x) && x.before == old(View()) && x.after == View()
      ensures resolved && (HasReceipt(old(View()), name, path) || !HasCollision(old(View()), path)) ==> NameClear(View(), name)
    {
      hide Inv; hide Cleaning; hide NameClear; hide HasReceipt; hide HasCollision; hide Reaches; hide Others; hide CleanedUp;
      hide Judged;
      ghost var w := View();
      ghost var seen, atDrop;
      resolved, seen, atDrop := CleanupOne(name, path, fault.read, fault.drop);
      x := NameVisit(name, path, fault, w, seen, atDrop, View(), resolved);
    }

    /** Names settled so far stay settled while the next one is cleaned up. */
    static lemma ManyStayClear(v: World, w: World, names: seq<string>)
      requires Cleaning(v, w)
      ensures forall x | 0 <= x < |names| && NameClear(v, names[x]) :: NameClear(w, names[x])
    {
      hide Cleaning; hide NameClear;
      forall x | 0 <= x < |names| && NameClear(v, names[x]) ensures NameClear(w, names[x]) { StaysClear(v, w, names[x]); }
    }

    static lemma AllNamed(w: World, path: string, names: seq<string>)
      requires !ReadReceipts(LinesOf(w, path), w.nonce).1
      requires forall e | e in ReadReceipts(LinesOf(w, path), w.nonce).0 && e.Created? :: e.name in names
      ensures forall n | HasReceipt(w, n, path) :: n in names
    {
      ReceiptsAreComplete(LinesOf(w, path), w.nonce);
      forall n | HasReceipt(w, n, path) ensures n in names {
        var o :| Receipt(w.nonce, Created(n, o)) in LinesOf(w, path);
        assert Created(n, o) in ReadReceipts(LinesOf(w, path), w.nonce).0;
      }
    }

    /** `finalise_cleanup`, whatever happened before it and whatever others do meanwhile: unless it reports
        NOT CLEAN, no database whose creation by this run was confirmed exists any more; and of all databases that the
        run created, even where it never learned the outcome, only hidden ones can be left, which takes a receipts file
        that two calls wrote into. It reports NOT CLEAN exactly when one of its visits is not resolved; every announced name
        and every fixture record has its visit. */
    method FinaliseCleanup(faults: nat -> Fault) returns (outcome: CleanupOutcome, ghost visits: seq<Visit>)
      requires Inv(View())
      modifies this
      ensures Inv(View()) && Cleans(old(View()), View())
      ensures Chain(old(View()), visits, View()) && Faulted(visits, faults, 0)
      ensures forall a | a in attempted :: Visited(visits, a)
      ensures |visits| >= |lifecycle| && FixturesVisited(visits[|visits| - |lifecycle|..], lifecycle)
      ensures outcome == NotClean <==> !AllResolved(visits)
      ensures outcome == NothingToClean <==> attempted == [] && lifecycle == []
      ensures outcome != NotClean ==> forall o | o in confirmed :: !Alive(View(), o)
      ensures outcome != NotClean ==> forall o | o in created && Alive(View(), o) :: Hidden(View(), created[o])
      ensures outcome != NotClean && OneCallPerFile(View()) ==> forall o | o in created :: !Alive(View(), o)
    {
      hide Inv; hide Cleaning; hide NameClear; hide HasReceipt; hide Alive; hide HasCollision; hide Reaches; hide Hidden;
      hide OneCallPerFile; hide Chain; hide Faulted; hide AllResolved; hide FixturesVisited; hide Visited; hide FilesClear;
      ghost var w0 := View();
      var files; ghost var first;
      var count;
      files, count, first := CleanupFiles(faults);
      ghost var w1 := View();
      KeptRecords(w0, w1);
      var fixtures; ghost var second;
      fixtures, second := CleanupFixtures(faults, count);
      KeptRecords(w1, View());
      CleansJoin(w0, w1, View());
      EarlierStayClear(w0, w1, View(), |w0.attempted|);
      visits := first + second;
      ChainJoin(w0, first, w1, second, View());
      FaultedJoin(first, second, faults, 0);
      ResolvedJoin(first, second);
      VisitedJoin(first, second);
      FixtureCount(second, lifecycle);
      assert visits[|visits| - |lifecycle|..] == second;
      if files && fixtures {
        EverythingSettled(w0, View());
      }
      NoVisits();
      if attempted == [] && lifecycle == [] { return NothingToClean, visits; }
      return if files && fixtures then Clean else NotClean, visits;
    }

    static predicate Visited(visits: seq<Visit>, a: Attempt) {
      exists k :: 0 <= k < |visits| && visits[k].NameVisit? && visits[k].name == a.name && visits[k].path == a.path
    }

    static lemma VisitedJoin(a: seq<Visit>, b: seq<Visit>)
      ensures forall x :: Visited(a, x) || Visited(b, x) ==> Visited(a + b, x)
    {
      forall x | Visited(a, x) || Visited(b, x) ensures Visited(a + b, x) {
        if k :| 0 <= k < |a| && a[k].NameVisit? && a[k].name == x.name && a[k].path == x.path {
          assert (a + b)[k] == a[k];
        } else {
          var k :| 0 <= k < |b| && b[k].NameVisit? && b[k].name == x.name && b[k].path == x.path;
          assert (a + b)[|a| + k] == b[k];
        }
      }
    }

    static predicate FixturesVisited(visits: seq<Visit>, fixtures: seq<Fixture>) {
      |visits| == |fixtures| && forall k | 0 <= k < |fixtures| :: visits[k].FixtureVisit? && visits[k].fx == fixtures[k]
    }

    static lemma FixtureCount(visits: seq<Visit>, fixtures: seq<Fixture>)
      requires FixturesVisited(visits, fixtures)
      ensures |visits| == |fixtures|
    {
    }

    /** Every announced receipts file, in turn. `count` is how many names were visited. */
    method CleanupFiles(faults: nat -> Fault) returns (clean: bool, count: nat, ghost visits: seq<Visit>)
      requires Inv(View())
      modifies this
      ensures Inv(View()) && Cleans(old(View()), View())
      ensures Chain(old(View()), visits, View()) && Faulted(visits, faults, 0) && count == |visits|
      ensures (clean <==> AllResolved(visits)) && (attempted == [] ==> visits == [])
      ensures forall a | a in attempted :: Visited(visits, a)
      ensures var w0 := old(View()); clean ==> FilesClear(w0, View(), |w0.attempted|)
    {
      hide Inv; hide Cleaning; hide NameClear; hide HasReceipt; hide HasCollision; hide Reaches; hide Chain; hide Others;
      hide Visited; hide AllResolved; hide VisitsOf; hide FileVisited;
      ghost var w0 := View();
      clean, count, visits := true, 0, [];
      CleansSelf(w0);
      ChainStart(w0);
      NoVisits();
      for i := 0 to |attempted|
        invariant Inv(View()) && Cleans(w0, View()) && attempted == w0.attempted
        invariant Chain(w0, visits, View()) && Faulted(visits, faults, 0) && count == |visits|
        invariant (clean <==> AllResolved(visits)) && (i == 0 ==> visits == [])
        invariant forall x | 0 <= x < i :: Visited(visits, w0.attempted[x])
        invariant clean ==> FilesClear(w0, View(), i)
      {
        ghost var w := View();
        var one, names; ghost var read, more;
        one, names, read, more := CleanupReceiptFile(attempted[i], faults, count);
        KeptRecords(w, View());
        SameReceipts(w0, w, w0.attempted[i].path);
        EarlierStayClear(w0, w, View(), i);
        CleansJoin(w0, w, View());
        ReadFirst(w, read, w0.attempted[i], names, more, View());
        ChainJoin(w0, visits, w, more, View());
        FaultedJoin(visits, more, faults, 0);
        ResolvedJoin(visits, more);
        VisitedJoin(visits, more);
        VisitCount(more, names, w0.attempted[i].path);
        visits := visits + more;
        count := count + |names|;
        clean := clean && one;
      }
    }

    static lemma NoVisits()
      ensures AllResolved([])
    {
    }

    static lemma VisitCount(visits: seq<Visit>, names: seq<string>, path: string)
      requires VisitsOf(visits, names, path)
      ensures |visits| == |names|
    {
    }

    /** Reading the file before its first visit is a moment in which others may act. */
    static lemma ReadFirst(w: World, read: World, a: Attempt, names: seq<string>, visits: seq<Visit>, v: World)
      requires Others(w, read) && Chain(read, visits, v) && FileVisited(read, a, names) && VisitsOf(visits, names, a.path)
      requires visits[0].before == read
      ensures Chain(w, visits, v) && Visited(visits, a)
    {
      hide Others; hide VisitOk;
      forall k | 0 <= k < |visits| ensures VisitOk(visits[k]) && Others(At(w, visits, k), visits[k].before) {
        assert VisitOk(visits[k]) && Others(At(read, visits, k), visits[k].before);
      }
    }

    /** The names of the first k files are settled, as far as the run's receipts and refusals in them go. */
    static ghost predicate FilesClear(w0: World, w: World, k: nat)
      requires k <= |w0.attempted|
    {
      && (forall x, n | 0 <= x < k && HasReceipt(w0, n, w0.attempted[x].path) :: NameClear(w, n))
      && (forall x | 0 <= x < k && !HasCollision(w0, w0.attempted[x].path) :: NameClear(w, w0.attempted[x].name))
    }

    /** Every fixture record, in turn. */
    method CleanupFixtures(faults: nat -> Fault, n: nat) returns (clean: bool, ghost visits: seq<Visit>)
      requires Inv(View())
      modifies this
      ensures Inv(View()) && Cleans(old(View()), View())
      ensures Chain(old(View()), visits, View()) && Faulted(visits, faults, n) && FixturesVisited(visits, lifecycle)
      ensures clean <==> AllResolved(visits)
      ensures clean ==> forall x | 0 <= x < |lifecycle| && Tracks(lifecycle[x]) :: NameClear(View(), lifecycle[x].name)
    {
      hide Inv; hide Cleaning; hide NameClear; hide Reaches; hide Others; hide Tracks; hide Chain; hide VisitOk;
      hide AllResolved;
      ghost var w0 := View();
      clean, visits := true, [];
      CleansSelf(w0);
      ChainStart(w0);
      NoVisits();
      for i := 0 to |lifecycle|
        invariant Inv(View()) && Cleans(w0, View()) && lifecycle == w0.lifecycle
        invariant Chain(w0, visits, View()) && Faulted(visits, faults, n) && FixturesVisited(visits, w0.lifecycle[..i])
        invariant clean <==> AllResolved(visits)
        invariant clean ==> forall x | 0 <= x < i && Tracks(w0.lifecycle[x]) :: NameClear(View(), w0.lifecycle[x].name)
      {
        ghost var w := View();
        var one; ghost var x;
        one, x := VisitFixture(lifecycle[i], faults(n + i));
        KeptRecords(w, View());
        FixturesStayClear(w, View(), w0.lifecycle);
        CleansJoin(w0, w, View());
        NobodyActed(w);
        ChainNext(w0, visits, w, x);
        ResolvedJoin(visits, [x]);
        OneResolved(x);
        visits := visits + [x];
        clean := clean && one;
      }
      assert w0.lifecycle[..|lifecycle|] == lifecycle;
    }

    static lemma OneResolved(x: Visit)
      ensures AllResolved([x]) <==> x.resolved
    {
      assert x in [x];
    }

    /** One fixture, as one record. */
    method VisitFixture(fx: Fixture, fault: Fault) returns (resolved: bool, ghost x: Visit)
      requires Inv(View()) && fx in lifecycle
      modifies this
      ensures Inv(View()) && Cleans(old(View()), View())
      ensures x.FixtureVisit? && x.fx == fx && x.fault == fault && x.resolved == resolved
      ensures VisitOk(x) && x.before == old(View()) && x.after == View()
      ensures resolved && Tracks(fx) ==> NameClear(View(), fx.name)
    {
      hide Inv; hide Cleaning; hide NameClear; hide Reaches; hide Others; hide DropDone;
      ghost var w := View();
      ghost var seen;
      resolved, seen := CleanupFixture(fx, fault.read || fault.drop);
      x := FixtureVisit(fx, fault, w, seen, View(), resolved);
    }

    static lemma EarlierStayClear(w0: World, v: World, w: World, k: nat)
      requires Cleaning(v, w) && k <= |w0.attempted|
      ensures FilesClear(w0, v, k) ==> FilesClear(w0, w, k)
    {
      hide Cleaning; hide NameClear; hide HasReceipt; hide HasCollision;
      forall n | NameClear(v, n) ensures NameClear(w, n) { StaysClear(v, w, n); }
    }

    static lemma FixturesStayClear(v: World, w: World, fixtures: seq<Fixture>)
      requires Cleaning(v, w)
      ensures forall x | 0 <= x < |fixtures| && NameClear(v, fixtures[x].name) :: NameClear(w, fixtures[x].name)
    {
      hide Cleaning; hide NameClear;
      forall x | 0 <= x < |fixtures| && NameClear(v, fixtures[x].name) ensures NameClear(w, fixtures[x].name) {
        StaysClear(v, w, fixtures[x].name);
      }
    }

    static lemma EverythingSettled(w0: World, w: World)
      requires Inv(w) && Cleaning(w0, w) && FilesClear(w0, w, |w0.attempted|)
      requires forall x | 0 <= x < |w.lifecycle| && Tracks(w.lifecycle[x]) :: NameClear(w, w.lifecycle[x].name)
      ensures forall o | o in w.confirmed :: !Alive(w, o)
      ensures forall o | o in w.created && Alive(w, o) :: Hidden(w, w.created[o])
      ensures OneCallPerFile(w) ==> forall o | o in w.created :: !Alive(w, o)
    {
      hide Inv; hide NameClear; hide HasReceipt; hide HasCollision; hide Cleaning; hide Hidden; hide OneCallPerFile; hide Alive;
      KeptRecords(w0, w);
      forall a, n | a in w.attempted && HasReceipt(w, n, a.path) ensures NameClear(w, n) {
        SameReceipts(w0, w, a.path);
        var x :| 0 <= x < |w0.attempted| && w0.attempted[x] == a;
      }
      AllClear(w);
      forall a | a in w.attempted && !HasCollision(w, a.path) ensures NameClear(w, a.name) {
        SameReceipts(w0, w, a.path);
        var x :| 0 <= x < |w0.attempted| && w0.attempted[x] == a;
      }
      OnlyHiddenAreLeft(w);
      forall o | o in w.created && Alive(w, o) ensures !OneCallPerFile(w) { HiddenTakesTwoCalls(w, w.created[o]); }
    }
  }
}
