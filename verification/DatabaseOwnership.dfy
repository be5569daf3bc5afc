/** A verification run creates and drops databases on a server that others use too. The state of such a
    run, what others may do between its steps, and what every step keeps. */
module DatabaseOwnership {
  import opened Prelude

  type Oid = nat

  /** A line of a receipts file: blank, unreadable, or a record with the nonce of the run that wrote it. */
  datatype Line = Blank | Garbage | Receipt(nonce: nat, event: Event)

  datatype Event =
    | CollisionRefused(name: string, existing: Oid)
    | CreateAttempt(name: string)
    | Created(name: string, oid: Oid)
    | DestroyRefused(name: string, current: Option<Oid>)
    | Destroyed(name: string, oid: Oid, confirmedAbsent: bool)

  datatype FixtureState = Attempted | NotCreated | CreateIssued | Exists | Confirmed | Dropped

  datatype Fixture = Fixture(step: string, name: string, state: FixtureState, oid: Option<Oid>)

  datatype Attempt = Attempt(step: string, name: string, path: string)

  /** One DROP DATABASE statement of this run: the name it gave and the database it hit. */
  datatype Drop = Drop(name: string, oid: Oid)

  /** `next` is above every oid ever assigned, so no oid is used twice. `created` are the databases this run's
      CREATE statements made, `confirmed` those whose oid it also read and recorded, `drops` the DROP
      statements it has executed, `taken` the databases others have dropped, `known` all there ever were. */
  datatype World = World(nonce: nat, databases: map<string, Oid>, next: Oid, files: map<string, seq<Line>>,
                         lifecycle: seq<Fixture>, attempted: seq<Attempt>, created: map<Oid, string>,
                         confirmed: map<Oid, string>, drops: seq<Drop>, known: set<Oid>, taken: set<Oid>)

  function LinesOf(w: World, path: string): seq<Line> { if path in w.files then w.files[path] else [] }

  // ---------------------------------------------------------------- receipts

  predicate Trusted(l: Line, nonce: nat) { l.Receipt? && l.nonce == nonce }

  /** `read_receipts`: the records up to the first line that is unreadable or belongs to another run, and
      whether there is such a line. */
  function ReadReceipts(lines: seq<Line>, nonce: nat): (seq<Event>, bool) {
    if lines == [] then ([], false)
    else if lines[0].Blank? then ReadReceipts(lines[1..], nonce)
    else if !Trusted(lines[0], nonce) then ([], true)
    else var (rest, problem) := ReadReceipts(lines[1..], nonce); ([lines[0].event] + rest, problem)
  }

  /** Without a problem the records are exactly this run's receipts in the file. */
  lemma {:induction false} ReceiptsAreComplete(lines: seq<Line>, nonce: nat)
    ensures var (records, problem) := ReadReceipts(lines, nonce);
            && (forall e | e in records :: Receipt(nonce, e) in lines)
            && (problem <==> exists l :: l in lines && !l.Blank? && !Trusted(l, nonce))
            && (!problem ==> forall e | Receipt(nonce, e) in lines :: e in records)
  {
    if lines != [] {
      ReceiptsAreComplete(lines[1..], nonce);
      assert lines == [lines[0]] + lines[1..];
    }
  }

  /** The creation receipts for a name. */
  function CreatedFor(records: seq<Event>, name: string): (r: seq<Event>)
    ensures forall e :: e in r <==> e in records && e.Created? && e.name == name
  {
    Filter(records, (e: Event) => e.Created? && e.name == name)
  }

  /** What makes cleanup take a database without creation receipt for somebody else's. */
  predicate CollisionShown(records: seq<Event>) { exists e :: e in records && e.CollisionRefused? }

  function CurrentOid(w: World, name: string): Option<Oid> { if name in w.databases then Some(w.databases[name]) else None }

  /** What cleanup does about a name: nothing is left to do, it is left alone, or one database may be dropped. */
  datatype Judgement = Settled | Unresolved | MayDrop(oid: Oid)

  /** The decision of `cleanup_one`, from the records of a readable file and the current oid. */
  function Judge(records: seq<Event>, name: string, current: Option<Oid>): Judgement {
    var receipts := CreatedFor(records, name);
    if receipts == [] then (if current.None? || CollisionShown(records) then Settled else Unresolved)
    else if current.None? then Settled
    else if current.value == receipts[|receipts| - 1].oid then MayDrop(current.value) else Unresolved
  }

  function Judged(w: World, name: string, path: string): Judgement {
    var (records, problem) := ReadReceipts(LinesOf(w, path), w.nonce);
    if problem then Unresolved else Judge(records, name, CurrentOid(w, name))
  }

  // ---------------------------------------------------------------- the invariant

  predicate Alive(w: World, o: Oid) { exists n :: n in w.databases && w.databases[n] == o }

  /** A fixture still to be cleaned up, or an attempted receipts file with the creation receipt, names the database. */
  ghost predicate Covered(w: World, o: Oid)
    requires o in w.confirmed
  {
    (exists f :: f in w.lifecycle && f.state == Confirmed && f.name == w.confirmed[o])
    || (exists a :: a in w.attempted && Receipt(w.nonce, Created(w.confirmed[o], o)) in LinesOf(w, a.path))
  }

  ghost predicate Sound(w: World) {
    && (forall n | n in w.databases :: w.databases[n] < w.next)
    && (forall n, m | n in w.databases && m in w.databases && w.databases[n] == w.databases[m] :: n == m)
    && (forall o | o in w.created :: o < w.next)
    && (forall o | o in w.confirmed :: o in w.created && w.created[o] == w.confirmed[o])
    // a created database exists only under the name it was created with
    && (forall n | n in w.databases && w.databases[n] in w.created :: w.created[w.databases[n]] == n)
    && (forall f | f in w.lifecycle && f.state == Confirmed ::
          f.oid.Some? && f.oid.value in w.confirmed && w.confirmed[f.oid.value] == f.name)
    && (forall p: string, e: Event | e.Created? && Receipt(w.nonce, e) in LinesOf(w, p) ::
          e.oid in w.confirmed && w.confirmed[e.oid] == e.name)
    // owned drops only
    && (forall d | d in w.drops :: d.oid in w.confirmed && w.confirmed[d.oid] == d.name)
  }

  ghost predicate AllCovered(w: World) { forall o | o in w.confirmed && Alive(w, o) :: Covered(w, o) }

  /** A record that says that a CREATE may have made a database of its name. */
  predicate Tracks(f: Fixture) { f.state in {CreateIssued, Exists, Confirmed} }

  predicate HasAttempt(w: World, name: string, path: string) { Receipt(w.nonce, CreateAttempt(name)) in LinesOf(w, path) }

  /** Cleanup will look at the name: for a record, or for an announced receipts file that shows an attempt to create the
      announced name, or a creation receipt. */
  ghost predicate Traced(w: World, name: string) {
    (exists f :: f in w.lifecycle && Tracks(f) && f.name == name)
    || (exists a :: a in w.attempted && Names(w, a, name))
  }

  ghost predicate Names(w: World, a: Attempt, name: string) {
    (a.name == name && HasAttempt(w, name, a.path)) || HasReceipt(w, name, a.path)
  }

  /** No CREATE of this run goes unrecorded, confirmed or not. */
  ghost predicate Traceable(w: World) { forall o | o in w.created && Alive(w, o) :: Traced(w, w.created[o]) }

  /** The run wrote a creation receipt for the name into the file. */
  ghost predicate HasReceipt(w: World, name: string, path: string) {
    exists o :: Receipt(w.nonce, Created(name, o)) in LinesOf(w, path)
  }

  /** The run wrote into the file that it refused a name in use. */
  ghost predicate HasCollision(w: World, path: string) {
    exists n, o :: Receipt(w.nonce, CollisionRefused(n, o)) in LinesOf(w, path)
  }

  predicate DroppedHere(w: World, o: Oid) { exists d :: d in w.drops && d.oid == o }

  /** No database vanishes unaccounted for: others dropped it, or a DROP of this run did. */
  ghost predicate Accounted(w: World) {
    && (forall n | n in w.databases :: w.databases[n] in w.known)
    && (forall o | o in w.known :: Alive(w, o) || o in w.taken || DroppedHere(w, o))
  }

  ghost predicate Inv(w: World) { Sound(w) && AllCovered(w) && Traceable(w) && Accounted(w) }

  // ---------------------------------------------------------------- other clients

  /** Others create databases (under oids never used before), drop any database, and may write lines that do
      not carry this run's nonce into any file. They do not touch the run's own records. */
  ghost predicate Others(w: World, v: World) {
    && v == w.(databases := v.databases, next := v.next, files := v.files, known := v.known, taken := v.taken)
    && w.next <= v.next && w.known <= v.known && w.taken <= v.taken
    && (forall n | n in v.databases :: v.databases[n] in v.known)
    && (forall o | o in v.known && o !in v.taken :: Alive(v, o) || (o in w.known && !Alive(w, o)))
    && (forall o | o in v.taken :: o in w.taken || (!Alive(v, o) && (Alive(w, o) || o !in w.known)))
    && (forall n | n in v.databases :: (n in w.databases && v.databases[n] == w.databases[n]) || w.next <= v.databases[n] < v.next)
    && (forall n, m | n in v.databases && m in v.databases && v.databases[n] == v.databases[m] :: n == m)
    && (forall p | p in w.files :: p in v.files)
    && (forall p | p in v.files ::
          LinesOf(w, p) <= v.files[p] && forall l | l in v.files[p][|LinesOf(w, p)|..] :: !Trusted(l, w.nonce))
  }

  /** Cover survives as long as the run's records do. */
  lemma CoverFrame(w: World, v: World)
    requires AllCovered(w) && v.nonce == w.nonce
    requires forall o | o in v.confirmed && Alive(v, o) :: o in w.confirmed && Alive(w, o) && v.confirmed[o] == w.confirmed[o]
    requires forall f | f in w.lifecycle && f.state == Confirmed :: f in v.lifecycle
    requires forall a | a in w.attempted :: a in v.attempted
    requires forall p, l | l in LinesOf(w, p) :: l in LinesOf(v, p)
    ensures AllCovered(v)
  {
    forall o | o in v.confirmed && Alive(v, o) ensures Covered(v, o) { assert Covered(w, o); }
  }

  /** So does the trace of a name. */
  lemma TraceFrame(w: World, v: World)
    requires Traceable(w) && v.nonce == w.nonce
    requires forall o | o in v.created && Alive(v, o) :: o in w.created && Alive(w, o) && v.created[o] == w.created[o]
    requires forall f | f in w.lifecycle && Tracks(f) :: exists g :: g in v.lifecycle && Tracks(g) && g.name == f.name
    requires forall a | a in w.attempted :: a in v.attempted
    requires forall p, l | l in LinesOf(w, p) :: l in LinesOf(v, p)
    ensures Traceable(v)
  {
    hide LinesOf; hide Tracks;
    forall o | o in v.created && Alive(v, o) ensures Traced(v, v.created[o]) {
      assert Traced(w, w.created[o]);
      TracedOn(w, v, w.created[o]);
    }
  }

  lemma TracedOn(w: World, v: World, name: string)
    requires v.nonce == w.nonce && Traced(w, name)
    requires forall f | f in w.lifecycle && Tracks(f) :: exists g :: g in v.lifecycle && Tracks(g) && g.name == f.name
    requires forall a | a in w.attempted :: a in v.attempted
    requires forall p, l | l in LinesOf(w, p) :: l in LinesOf(v, p)
    ensures Traced(v, name)
  {
    hide LinesOf; hide Tracks;
    if a :| a in w.attempted && Names(w, a, name) { assert a in v.attempted && Names(v, a, name); }
  }

  lemma OthersKeepFiles(w: World, v: World)
    requires Others(w, v)
    ensures forall p, l | l in LinesOf(w, p) :: l in LinesOf(v, p)
    ensures forall p, e | Receipt(w.nonce, e) in LinesOf(v, p) :: Receipt(w.nonce, e) in LinesOf(w, p)
  {
    forall p, l | l in LinesOf(w, p) ensures l in LinesOf(v, p) {
      assert p in v.files;
      assert v.files[p] == LinesOf(w, p) + v.files[p][|LinesOf(w, p)|..];
    }
    forall p, e | Receipt(w.nonce, e) in LinesOf(v, p) ensures Receipt(w.nonce, e) in LinesOf(w, p) {
      assert v.files[p] == LinesOf(w, p) + v.files[p][|LinesOf(w, p)|..];
    }
  }

  /** What others can do neither breaks the invariant nor brings a confirmed database back. */
  lemma OthersKeep(w: World, v: World)
    requires Inv(w) && Others(w, v)
    ensures Inv(v) && Cleaning(w, v)
  {
    hide Covered; hide AllCovered; hide Traceable; hide Accounted; hide Sound; hide Others;
    OthersKeepFiles(w, v);
    OthersBringNothingBack(w, v);
    OthersAccount(w, v);
    CoverFrame(w, v);
    TraceFrame(w, v);
  }

  lemma OthersBringNothingBack(w: World, v: World)
    requires Sound(w) && Others(w, v)
    ensures Sound(v) && v == w.(databases := v.databases, next := v.next, files := v.files, known := v.known, taken := v.taken)
    ensures forall o | o in v.confirmed :: o in v.created
    ensures forall o | o in v.created && Alive(v, o) :: Alive(w, o)
  {
    OthersKeepFiles(w, v);
    forall o | o in v.created && Alive(v, o) ensures Alive(w, o) {
      var n :| n in v.databases && v.databases[n] == o;
      assert n in w.databases && w.databases[n] == o;
    }
  }

  lemma OthersAccount(w: World, v: World)
    requires Accounted(w) && Others(w, v)
    ensures Accounted(v)
  {
  }

  // ---------------------------------------------------------------- what the run's own statements do

  function CreateDatabase(w: World, name: string): World
    requires name !in w.databases
  {
    w.(databases := w.databases[name := w.next], next := w.next + 1, created := w.created[w.next := name],
       known := w.known + {w.next})
  }

  function DropDatabase(w: World, name: string): World
    requires name in w.databases
  {
    w.(databases := w.databases - {name}, drops := w.drops + [Drop(name, w.databases[name])])
  }

  function Append(w: World, path: string, e: Event): World {
    w.(files := w.files[path := LinesOf(w, path) + [Receipt(w.nonce, e)]])
  }

  /** A new database is nobody's until its oid is confirmed; its name must have been recorded before. */
  lemma CreateKeeps(w: World, name: string)
    requires Inv(w) && name !in w.databases && Traced(w, name)
    ensures Inv(CreateDatabase(w, name)) && OwnUnconfirmed(CreateDatabase(w, name), name)
  {
    hide Covered; hide AllCovered; hide Traceable; hide Accounted; hide Sound;
    var v := CreateDatabase(w, name);
    CreateIsSound(w, name);
    forall o | o in v.confirmed && Alive(v, o) ensures Alive(w, o) {
      var n :| n in v.databases && v.databases[n] == o;
      assert n in w.databases && w.databases[n] == o;
    }
    assert forall p :: LinesOf(v, p) == LinesOf(w, p);
    CoverFrame(w, v);
    CreateTraces(w, name);
    CreateAccounts(w, name);
  }

  lemma CreateTraces(w: World, name: string)
    requires Traceable(w) && name !in w.databases && Traced(w, name)
    ensures Traceable(CreateDatabase(w, name))
  {
    hide Traced;
    var v := CreateDatabase(w, name);
    assert forall p :: LinesOf(v, p) == LinesOf(w, p);
    forall o | o in v.created && Alive(v, o) ensures Traced(v, v.created[o]) {
      var n :| n in v.databases && v.databases[n] == o;
      if o != w.next { assert n in w.databases && w.databases[n] == o; }
      TracedOn(w, v, v.created[o]);
    }
  }

  lemma CreateIsSound(w: World, name: string)
    requires Sound(w) && name !in w.databases
    ensures Sound(CreateDatabase(w, name)) && OwnUnconfirmed(CreateDatabase(w, name), name)
    ensures forall o | o in w.confirmed :: o != w.next
  {
    assert forall p :: LinesOf(CreateDatabase(w, name), p) == LinesOf(w, p);
  }

  lemma CreateAccounts(w: World, name: string)
    requires Accounted(w) && name !in w.databases
    ensures Accounted(CreateDatabase(w, name))
  {
    var v := CreateDatabase(w, name);
    assert v.databases[name] == w.next;
    forall o | Alive(w, o) ensures Alive(v, o) {
      var n :| n in w.databases && w.databases[n] == o;
      assert n in v.databases && v.databases[n] == o;
    }
  }

  lemma DropAccounts(w: World, name: string)
    requires Accounted(w) && name in w.databases
    ensures Accounted(DropDatabase(w, name))
  {
    var v := DropDatabase(w, name);
    assert v.drops[|v.drops| - 1] in v.drops;
    forall o | o in v.known ensures Alive(v, o) || o in v.taken || DroppedHere(v, o) {
      if Alive(w, o) {
        var n :| n in w.databases && w.databases[n] == o;
        assert n != name ==> n in v.databases && v.databases[n] == o;
      } else if DroppedHere(w, o) {
        var d :| d in w.drops && d.oid == o;
        assert d in v.drops;
      }
    }
  }

  lemma AccountFrame(w: World, v: World)
    requires Accounted(w) && v.databases == w.databases && v.drops == w.drops && v.known == w.known && v.taken == w.taken
    ensures Accounted(v)
  {
    forall o | Alive(w, o) ensures Alive(v, o) { var n :| n in w.databases && w.databases[n] == o; }
  }

  /** Dropping a database this run confirmed keeps the invariant; it would not for any other. */
  lemma DropKeeps(w: World, name: string)
    requires Inv(w) && name in w.databases
    ensures Inv(DropDatabase(w, name)) <==> w.databases[name] in w.confirmed
    ensures w.databases[name] in w.confirmed ==> Cleaning(w, DropDatabase(w, name)) && NameClear(DropDatabase(w, name), name)
  {
    hide Covered; hide AllCovered; hide Traceable; hide Accounted;
    var v := DropDatabase(w, name);
    assert v.drops[|v.drops| - 1] in v.drops;
    forall o | o in v.created && Alive(v, o) ensures Alive(w, o) && v.created[o] != name {
      var n :| n in v.databases && v.databases[n] == o;
      assert n in w.databases && w.databases[n] == o;
    }
    assert forall p :: LinesOf(v, p) == LinesOf(w, p);
    CoverFrame(w, v);
    TraceFrame(w, v);
    DropAccounts(w, name);
  }

  lemma AppendKeeps(w: World, path: string, e: Event)
    requires Inv(w) && (e.Created? ==> e.oid in w.confirmed && w.confirmed[e.oid] == e.name)
    ensures Inv(Append(w, path, e))
  {
    hide Covered; hide AllCovered; hide Traceable; hide Accounted;
    var v := Append(w, path, e);
    forall o | Alive(v, o) ensures Alive(w, o) {
      var n :| n in v.databases && v.databases[n] == o;
      assert n in w.databases && w.databases[n] == o;
    }
    AppendLines(w, path, e);
    CoverFrame(w, v);
    TraceFrame(w, v);
    AccountFrame(w, v);
  }

  /** Confirming the oid just read under a name, with nothing yet said about who cleans it up. */
  function Confirm(w: World, name: string): World
    requires name in w.databases
  {
    w.(confirmed := w.confirmed[w.databases[name] := name])
  }

  /** The database under the name was created there by this run and not confirmed yet. */
  predicate OwnUnconfirmed(w: World, name: string) {
    && name in w.databases && w.databases[name] !in w.confirmed
    && w.databases[name] in w.created && w.created[w.databases[name]] == name
  }

  lemma ConfirmIsSound(w: World, name: string)
    requires Sound(w) && OwnUnconfirmed(w, name)
    ensures Sound(Confirm(w, name))
  {
    assert forall p :: LinesOf(Confirm(w, name), p) == LinesOf(w, p);
  }

  predicate HasFixture(w: World, name: string) { exists f :: f in w.lifecycle && f.state == Confirmed && f.name == name }

  predicate HasFile(w: World, path: string) { exists a :: a in w.attempted && a.path == path }

  /** The receipts file was announced for this very database. */
  predicate Announced(w: World, name: string, path: string) { exists a :: a in w.attempted && a.path == path && a.name == name }

  /** The creation receipt that confirms a database leads cleanup to it when its file was announced as an
      attempt, or when a fixture of that name is still to be cleaned up. */
  lemma ReceiptConfirms(w: World, name: string, path: string)
    requires Inv(w) && OwnUnconfirmed(w, name)
    requires HasFile(w, path) || HasFixture(w, name)
    ensures Inv(Append(Confirm(w, name), path, Created(name, w.databases[name])))
  {
    hide AllCovered; hide Traceable; hide Sound; hide Accounted;
    ConfirmTraces(w, name, path);
    AccountFrame(w, Append(Confirm(w, name), path, Created(name, w.databases[name])));
    ConfirmIsSound(w, name);
    AppendIsSound(Confirm(w, name), path, Created(name, w.databases[name]));
    ReceiptCovers(w, name, path);
  }

  lemma ConfirmTraces(w: World, name: string, path: string)
    requires Traceable(w) && name in w.databases
    ensures Traceable(Append(Confirm(w, name), path, Created(name, w.databases[name])))
  {
    hide Traceable;
    var v := Append(Confirm(w, name), path, Created(name, w.databases[name]));
    forall o | Alive(v, o) ensures Alive(w, o) { var n :| n in v.databases && v.databases[n] == o; }
    AppendLines(Confirm(w, name), path, Created(name, w.databases[name]));
    assert forall p :: LinesOf(Confirm(w, name), p) == LinesOf(w, p);
    TraceFrame(w, v);
  }

  lemma ReceiptCovers(w: World, name: string, path: string)
    requires AllCovered(w) && OwnUnconfirmed(w, name) && (HasFile(w, path) || HasFixture(w, name))
    ensures AllCovered(Append(Confirm(w, name), path, Created(name, w.databases[name])))
  {
    var o := w.databases[name];
    var v := Append(Confirm(w, name), path, Created(name, o));
    AppendLines(Confirm(w, name), path, Created(name, o));
    assert forall p, l | l in LinesOf(w, p) :: l in LinesOf(v, p);
    assert Receipt(v.nonce, Created(name, o)) in LinesOf(v, path);
    forall x | x in v.confirmed && Alive(v, x) ensures Covered(v, x) {
      if x != o {
        var n :| n in v.databases && v.databases[n] == x;
        assert n in w.databases && w.databases[n] == x;
        assert Covered(w, x);
      }
    }
  }

  lemma AppendIsSound(w: World, path: string, e: Event)
    requires Sound(w) && (e.Created? ==> e.oid in w.confirmed && w.confirmed[e.oid] == e.name)
    ensures Sound(Append(w, path, e))
  {
    AppendLines(w, path, e);
    assert forall f | Receipt(w.nonce, f) in LinesOf(w, path) + [Receipt(w.nonce, e)] ::
        f == e || Receipt(w.nonce, f) in LinesOf(w, path);
  }

  lemma AppendLines(w: World, path: string, e: Event)
    ensures forall p :: LinesOf(Append(w, path, e), p) == LinesOf(w, p) + if p == path then [Receipt(w.nonce, e)] else []
  {
  }

  function Mark(w: World, k: nat, state: FixtureState, oid: Option<Oid>): World
    requires k < |w.lifecycle|
  {
    w.(lifecycle := w.lifecycle[k := w.lifecycle[k].(state := state, oid := oid)])
  }

  /** The confirmed fixture record leads cleanup to its database. */
  lemma FixtureConfirms(w: World, k: nat)
    requires Inv(w) && k < |w.lifecycle| && w.lifecycle[k].state != Confirmed
    requires OwnUnconfirmed(w, w.lifecycle[k].name)
    ensures var name := w.lifecycle[k].name; Inv(Mark(Confirm(w, name), k, Confirmed, Some(w.databases[name])))
  {
    hide Sound; hide AllCovered; hide Traceable; hide Accounted;
    var name := w.lifecycle[k].name;
    var v := Mark(Confirm(w, name), k, Confirmed, Some(w.databases[name]));
    AccountFrame(w, v);
    MarkTraces(w, v, k);
    FixtureIsSound(w, k);
    FixtureCovers(w, k);
  }

  lemma FixtureIsSound(w: World, k: nat)
    requires Sound(w) && k < |w.lifecycle| && OwnUnconfirmed(w, w.lifecycle[k].name)
    ensures var name := w.lifecycle[k].name; Sound(Mark(Confirm(w, name), k, Confirmed, Some(w.databases[name])))
  {
    var name := w.lifecycle[k].name;
    var u := Confirm(w, name);
    var v := Mark(u, k, Confirmed, Some(w.databases[name]));
    ConfirmIsSound(w, name);
    OtherFixtures(u, v, k);
    assert forall p :: LinesOf(v, p) == LinesOf(u, p);
  }

  lemma FixtureCovers(w: World, k: nat)
    requires AllCovered(w) && k < |w.lifecycle| && w.lifecycle[k].state != Confirmed && OwnUnconfirmed(w, w.lifecycle[k].name)
    ensures var name := w.lifecycle[k].name; AllCovered(Mark(Confirm(w, name), k, Confirmed, Some(w.databases[name])))
  {
    var name := w.lifecycle[k].name;
    var v := Mark(Confirm(w, name), k, Confirmed, Some(w.databases[name]));
    OtherFixtures(w, v, k);
    assert forall p :: LinesOf(v, p) == LinesOf(w, p);
    assert v.lifecycle[k] in v.lifecycle;
    forall x | x in v.confirmed && Alive(v, x) ensures Covered(v, x) {
      if x != w.databases[name] {
        var n :| n in v.databases && v.databases[n] == x;
        assert Alive(w, x) && Covered(w, x);
      }
    }
  }

  /** A record that stays on track, or whose name is clear, may change. */
  lemma MarkTraces(w: World, v: World, k: nat)
    requires Traceable(w) && k < |w.lifecycle| == |v.lifecycle| && v.lifecycle == w.lifecycle[k := v.lifecycle[k]]
    requires v.lifecycle[k].name == w.lifecycle[k].name
    requires Tracks(w.lifecycle[k]) ==> Tracks(v.lifecycle[k]) || NameClear(w, w.lifecycle[k].name)
    requires v.nonce == w.nonce && v.created == w.created && v.databases == w.databases
    requires v.attempted == w.attempted && v.files == w.files
    ensures Traceable(v)
  {
    OtherFixtures(w, v, k);
    assert v.lifecycle[k] in v.lifecycle && w.lifecycle[k] in w.lifecycle;
    assert forall p :: LinesOf(v, p) == LinesOf(w, p);
    forall o | o in v.created && Alive(v, o) ensures Traced(v, v.created[o]) {
      var n :| n in v.databases && v.databases[n] == o;
      assert Alive(w, o) && Traced(w, w.created[o]);
      StillTraced(w, v, k, w.created[o]);
    }
  }

  lemma StillTraced(w: World, v: World, k: nat, name: string)
    requires k < |w.lifecycle| == |v.lifecycle| && v.lifecycle[k].name == w.lifecycle[k].name
    requires forall f | f in w.lifecycle :: f == w.lifecycle[k] || f in v.lifecycle
    requires Tracks(w.lifecycle[k]) ==> Tracks(v.lifecycle[k]) || name != w.lifecycle[k].name
    requires v.nonce == w.nonce && v.attempted == w.attempted && forall p :: LinesOf(v, p) == LinesOf(w, p)
    requires Traced(w, name)
    ensures Traced(v, name)
  {
    if f :| f in w.lifecycle && Tracks(f) && f.name == name {
      var g := if f == w.lifecycle[k] then v.lifecycle[k] else f;
      assert v.lifecycle[k] in v.lifecycle;
      assert g in v.lifecycle && Tracks(g) && g.name == name;
    } else {
      var a :| a in w.attempted && Names(w, a, name);
      assert Names(v, a, name);
    }
  }

  lemma OtherFixtures(w: World, v: World, k: nat)
    requires k < |w.lifecycle| == |v.lifecycle| && v.lifecycle == w.lifecycle[k := v.lifecycle[k]]
    ensures forall f | f in v.lifecycle :: f == v.lifecycle[k] || f in w.lifecycle
    ensures forall f | f in w.lifecycle :: f == w.lifecycle[k] || f in v.lifecycle
  {
    forall f | f in w.lifecycle ensures f == w.lifecycle[k] || f in v.lifecycle {
      var j :| 0 <= j < |w.lifecycle| && w.lifecycle[j] == f;
      if j != k { assert v.lifecycle[j] == f; }
    }
  }

  /** Any record that claims nothing yet, goes on claiming, or need no longer claim anything may be marked. */
  lemma MarkKeeps(w: World, k: nat, state: FixtureState, oid: Option<Oid>)
    requires Inv(w) && k < |w.lifecycle| && state != Confirmed
    requires var f := w.lifecycle[k];
             !Tracks(f) || (f.state != Confirmed && state in {CreateIssued, Exists}) || NameClear(w, f.name)
    ensures Inv(Mark(w, k, state, oid))
  {
    hide Accounted; hide Traceable;
    var v := Mark(w, k, state, oid);
    AccountFrame(w, v);
    MarkTraces(w, v, k);
    MarkCovers(w, k, state, oid);
    OtherFixtures(w, v, k);
    assert forall p :: LinesOf(v, p) == LinesOf(w, p);
  }

  lemma MarkCovers(w: World, k: nat, state: FixtureState, oid: Option<Oid>)
    requires Sound(w) && AllCovered(w) && k < |w.lifecycle| && state != Confirmed
    requires w.lifecycle[k].state != Confirmed || NameClear(w, w.lifecycle[k].name)
    ensures AllCovered(Mark(w, k, state, oid))
  {
    var v := Mark(w, k, state, oid);
    OtherFixtures(w, v, k);
    assert forall p :: LinesOf(v, p) == LinesOf(w, p);
    forall o | o in v.confirmed && Alive(v, o) ensures Covered(v, o) {
      var n :| n in v.databases && v.databases[n] == o;
      assert Alive(w, o) && Covered(w, o);
    }
  }

  lemma RegisterKeeps(w: World, f: Fixture)
    requires Inv(w) && f.state != Confirmed
    ensures Inv(w.(lifecycle := w.lifecycle + [f]))
  {
    hide Covered; hide AllCovered; hide Traceable; hide Accounted;
    var v := w.(lifecycle := w.lifecycle + [f]);
    forall o | Alive(v, o) ensures Alive(w, o) {
      var n :| n in v.databases && v.databases[n] == o;
    }
    assert forall p :: LinesOf(v, p) == LinesOf(w, p);
    CoverFrame(w, v);
    TraceFrame(w, v);
    AccountFrame(w, v);
  }

  lemma AttemptKeeps(w: World, a: Attempt)
    requires Inv(w)
    ensures Inv(w.(attempted := w.attempted + [a]))
  {
    hide Covered; hide AllCovered; hide Traceable; hide Accounted;
    var v := w.(attempted := w.attempted + [a]);
    forall o | Alive(v, o) ensures Alive(w, o) {
      var n :| n in v.databases && v.databases[n] == o;
    }
    assert forall p :: LinesOf(v, p) == LinesOf(w, p);
    CoverFrame(w, v);
    TraceFrame(w, v);
    AccountFrame(w, v);
  }

  // ---------------------------------------------------------------- cleaning up

  /** No database that this run created under the name, confirmed or not, exists any more. */
  ghost predicate NameClear(w: World, name: string) {
    forall o | o in w.created && w.created[o] == name :: !Alive(w, o)
  }

  /** A stretch of cleanup: the records stay, and no created database comes back. */
  ghost predicate Cleaning(w: World, v: World) {
    && v.nonce == w.nonce && v.lifecycle == w.lifecycle && v.attempted == w.attempted
    && v.confirmed == w.confirmed && v.created == w.created
    && (forall p, e :: Receipt(w.nonce, e) in LinesOf(v, p) <==> Receipt(w.nonce, e) in LinesOf(w, p))
    && (forall o | o in w.created && Alive(v, o) :: Alive(w, o))
  }

  lemma SameReceipts(v: World, w: World, path: string)
    requires Cleaning(v, w)
    ensures forall n :: HasReceipt(w, n, path) <==> HasReceipt(v, n, path)
    ensures HasCollision(w, path) <==> HasCollision(v, path)
  {
  }

  lemma CleaningJoin(u: World, v: World, w: World)
    requires Cleaning(u, v) && Cleaning(v, w)
    ensures Cleaning(u, w)
  {
  }

  /** A cleared name stays cleared. */
  lemma StaysClear(w: World, v: World, name: string)
    requires Cleaning(w, v) && NameClear(w, name)
    ensures NameClear(v, name)
  {
  }

  /** An absent database is not there under its creation name, hence nowhere. */
  lemma AbsentIsClear(w: World, name: string)
    requires Inv(w) && (name in w.databases ==> w.databases[name] !in w.created)
    ensures NameClear(w, name)
  {
  }

  /** What cleanup must have settled: the name of every fixture to clean up and of every creation receipt in
      an attempted file. Then no confirmed database is left. */
  lemma AllClear(w: World)
    requires Inv(w)
    requires forall f | f in w.lifecycle && f.state == Confirmed :: NameClear(w, f.name)
    requires forall a, n | a in w.attempted && HasReceipt(w, n, a.path) :: NameClear(w, n)
    ensures forall o | o in w.confirmed :: !Alive(w, o)
  {
    forall o | o in w.confirmed ensures !Alive(w, o) {
      assert Alive(w, o) ==> Covered(w, o);
      CoveredIsClear(w, o);
    }
  }

  /** A name that cleanup takes for somebody else's: an announced file shows an attempt to create it, but none a
      creation receipt; and every file announced for it shows a refused collision. */
  ghost predicate Hidden(w: World, name: string) {
    && (exists a :: a in w.attempted && a.name == name && HasAttempt(w, name, a.path))
    && (forall a | a in w.attempted && a.name == name :: HasCollision(w, a.path))
    && (forall a | a in w.attempted :: !HasReceipt(w, name, a.path))
    && (forall f | f in w.lifecycle && Tracks(f) :: f.name != name)
  }

  /** One call of the owned runner writes an attempt or a refusal, never both, into its file. */
  ghost predicate OneCallPerFile(w: World) {
    forall a | a in w.attempted && HasAttempt(w, a.name, a.path) :: !HasCollision(w, a.path)
  }

  lemma HiddenTakesTwoCalls(w: World, name: string)
    requires Hidden(w, name)
    ensures !OneCallPerFile(w)
  {
    hide HasReceipt; hide HasCollision; hide HasAttempt;
  }

  /** If the names of all records, all receipts and all files without a refused collision are settled, every
      database of the run that is left is hidden. */
  lemma OnlyHiddenAreLeft(w: World)
    requires Inv(w)
    requires forall f | f in w.lifecycle && Tracks(f) :: NameClear(w, f.name)
    requires forall a, n | a in w.attempted && HasReceipt(w, n, a.path) :: NameClear(w, n)
    requires forall a | a in w.attempted && !HasCollision(w, a.path) :: NameClear(w, a.name)
    ensures forall o | o in w.created && Alive(w, o) :: Hidden(w, w.created[o])
  {
    hide Sound; hide AllCovered; hide Accounted; hide HasReceipt; hide HasCollision; hide Tracks;
    forall o | o in w.created && Alive(w, o) ensures Hidden(w, w.created[o]) {
      assert Traced(w, w.created[o]) && !NameClear(w, w.created[o]);
    }
  }

  lemma CoveredIsClear(w: World, o: Oid)
    requires Inv(w) && o in w.confirmed
    requires forall f | f in w.lifecycle && f.state == Confirmed :: NameClear(w, f.name)
    requires forall a, n | a in w.attempted && HasReceipt(w, n, a.path) :: NameClear(w, n)
    ensures Covered(w, o) ==> NameClear(w, w.confirmed[o])
  {
    assert forall p | Receipt(w.nonce, Created(w.confirmed[o], o)) in LinesOf(w, p) :: HasReceipt(w, w.confirmed[o], p);
  }

  // ---------------------------------------------------------------- what cleanup decides

  /** The records of a readable file, in terms of what the run wrote into it. */
  lemma FileShows(w: World, name: string, path: string)
    requires !ReadReceipts(LinesOf(w, path), w.nonce).1
    ensures var records := ReadReceipts(LinesOf(w, path), w.nonce).0;
            && (CreatedFor(records, name) != [] <==> HasReceipt(w, name, path))
            && (CollisionShown(records) <==> HasCollision(w, path))
  {
    ReceiptsAreComplete(LinesOf(w, path), w.nonce);
    var records := ReadReceipts(LinesOf(w, path), w.nonce).0;
    var receipts := CreatedFor(records, name);
    if receipts != [] {
      var e := receipts[0];
      assert e in receipts && e == Created(name, e.oid);
    }
    if o :| Receipt(w.nonce, Created(name, o)) in LinesOf(w, path) { assert Created(name, o) in receipts; }
    if e :| e in records && e.CollisionRefused? { assert e == CollisionRefused(e.name, e.existing); }
    if n, o :| Receipt(w.nonce, CollisionRefused(n, o)) in LinesOf(w, path) { assert CollisionRefused(n, o) in records; }
  }

  predicate CreatesName(l: Line, name: string) { l.Receipt? && l.event.Created? && l.event.name == name }

  /** The last creation receipt for the name in the file is for this oid. */
  predicate LastCreated(lines: seq<Line>, name: string, oid: Oid) {
    exists i :: 0 <= i < |lines| && CreatesName(lines[i], name) && lines[i].event.oid == oid
                && forall j | i < j < |lines| :: !CreatesName(lines[j], name)
  }

  /** Every line but the blank ones is a receipt of this run. */
  predicate AllOwn(lines: seq<Line>, nonce: nat) { forall l | l in lines :: l.Blank? || (l.Receipt? && l.nonce == nonce) }

  lemma NoneCreated(lines: seq<Line>, nonce: nat, name: string)
    requires AllOwn(lines, nonce)
    ensures CreatedFor(ReadReceipts(lines, nonce).0, name) == [] <==> forall l | l in lines :: !CreatesName(l, name)
  {
    hide ReadReceipts;
    ReceiptsAreComplete(lines, nonce);
    var records := ReadReceipts(lines, nonce).0;
    var cs := CreatedFor(records, name);
    if cs != [] { assert cs[0] in cs && Receipt(nonce, cs[0]) in lines && CreatesName(Receipt(nonce, cs[0]), name); }
    if l :| l in lines && CreatesName(l, name) { assert l == Receipt(nonce, l.event) && l.event in cs; }
  }

  lemma {:induction false} LastReceipt(lines: seq<Line>, nonce: nat, name: string, oid: Oid)
    requires AllOwn(lines, nonce)
    ensures var cs := CreatedFor(ReadReceipts(lines, nonce).0, name);
            cs != [] && cs[|cs| - 1].oid == oid <==> LastCreated(lines, name, oid)
  {
    if lines == [] {
      NothingCreated(nonce, name, oid);
    } else {
      hide ReadReceipts; hide CreatedFor; hide LastCreated;
      var rest := lines[1..];
      LastReceipt(rest, nonce, name, oid);
      NoneCreated(rest, nonce, name);
      LastShifts(lines, name, oid);
      CreatedAfter(lines, nonce, name);
      LastOfJoined(if CreatesName(lines[0], name) then [lines[0].event] else [], CreatedFor(ReadReceipts(rest, nonce).0, name));
    }
  }

  lemma LastOfJoined<T>(a: seq<T>, b: seq<T>)
    ensures b != [] ==> (a + b)[|a + b| - 1] == b[|b| - 1]
    ensures b == [] ==> a + b == a
  {
  }

  lemma NothingCreated(nonce: nat, name: string, oid: Oid)
    ensures CreatedFor(ReadReceipts([], nonce).0, name) == [] && !LastCreated([], name, oid)
  {
  }

  lemma CreatedAfter(lines: seq<Line>, nonce: nat, name: string)
    requires lines != [] && AllOwn(lines, nonce)
    ensures CreatesName(lines[0], name) ==> lines[0].Receipt?
    ensures CreatedFor(ReadReceipts(lines, nonce).0, name)
            == (if CreatesName(lines[0], name) then [lines[0].event] else []) + CreatedFor(ReadReceipts(lines[1..], nonce).0, name)
    ensures CreatesName(lines[0], name) ==> lines[0].event.Created?
  {
    hide CreatedFor;
    assert lines[0] in lines;
    if lines[0].Receipt? { CreatedStep(lines[0].event, ReadReceipts(lines[1..], nonce).0, name); }
  }

  lemma CreatedStep(e: Event, records: seq<Event>, name: string)
    ensures CreatedFor([e] + records, name) == (if e.Created? && e.name == name then [e] else []) + CreatedFor(records, name)
  {
    assert ([e] + records)[1..] == records;
  }

  lemma LastShifts(lines: seq<Line>, name: string, oid: Oid)
    requires lines != []
    ensures LastCreated(lines, name, oid)
            <==> LastCreated(lines[1..], name, oid)
                 || (CreatesName(lines[0], name) && lines[0].event.oid == oid && forall l | l in lines[1..] :: !CreatesName(l, name))
  {
    var rest := lines[1..];
    if CreatesName(lines[0], name) && lines[0].event.oid == oid && forall l | l in rest :: !CreatesName(l, name) {
      assert forall j | 0 < j < |lines| :: lines[j] == rest[j - 1] && rest[j - 1] in rest;
    }
    if i :| 0 <= i < |rest| && CreatesName(rest[i], name) && rest[i].event.oid == oid
            && forall j | i < j < |rest| :: !CreatesName(rest[j], name) {
      assert forall j | i + 1 < j < |lines| :: lines[j] == rest[j - 1];
      assert lines[i + 1] == rest[i];
    }
    if i :| 0 <= i < |lines| && CreatesName(lines[i], name) && lines[i].event.oid == oid
            && forall j | i < j < |lines| :: !CreatesName(lines[j], name) {
      if i > 0 { assert rest[i - 1] == lines[i]; }
      assert forall j | 0 <= j < |rest| :: rest[j] == lines[j + 1];
    }
  }

  /** The decision on a name, said on the lines of its file: a file with a line that is not the run's own decides
      nothing; a database is dropped exactly when it stands under the name with the oid of the last creation receipt; and
      the name is settled exactly when nothing is there, or no creation but some refusal is on record. */
  lemma JudgedIff(w: World, name: string, path: string, oid: Oid)
    ensures var lines := LinesOf(w, path);
            && (Judged(w, name, path) == MayDrop(oid) <==>
                  AllOwn(lines, w.nonce) && name in w.databases && w.databases[name] == oid && LastCreated(lines, name, oid))
            && (Judged(w, name, path) == Settled <==>
                  && AllOwn(lines, w.nonce)
                  && (name !in w.databases
                      || ((forall l | l in lines :: !CreatesName(l, name))
                          && exists l :: l in lines && l.Receipt? && l.event.CollisionRefused?)))
  {
    hide ReadReceipts; hide CreatedFor; hide LastCreated;
    var lines := LinesOf(w, path);
    ReceiptsAreComplete(lines, w.nonce);
    if AllOwn(lines, w.nonce) {
      LastReceipt(lines, w.nonce, name, oid);
      NoneCreated(lines, w.nonce, name);
      var records := ReadReceipts(lines, w.nonce).0;
      if l :| l in lines && l.Receipt? && l.event.CollisionRefused? { assert l == Receipt(w.nonce, l.event) && l.event in records; }
      if e :| e in records && e.CollisionRefused? { assert Receipt(w.nonce, e) in lines; }
    }
  }

  /** Exactly when cleanup settles a name under which a database of the run is still there: its file shows no
      creation receipt for the name, and a refused collision. */
  lemma HiddenIff(w: World, name: string, path: string)
    requires Inv(w) && !ReadReceipts(LinesOf(w, path), w.nonce).1
    requires name in w.databases && w.databases[name] in w.created
    ensures Judged(w, name, path) == Settled <==> !HasReceipt(w, name, path) && HasCollision(w, path)
  {
    hide Inv; hide HasReceipt; hide HasCollision; hide ReadReceipts; hide CreatedFor; hide CollisionShown;
    FileShows(w, name, path);
  }

  /** What may be dropped is a database of the run, confirmed under the name by a receipt in the file. */
  lemma MayDropIsOwned(w: World, name: string, path: string)
    requires Inv(w) && Judged(w, name, path).MayDrop?
    ensures var o := Judged(w, name, path).oid;
            && CurrentOid(w, name) == Some(o) && Receipt(w.nonce, Created(name, o)) in LinesOf(w, path)
            && o in w.confirmed && w.confirmed[o] == name
  {
    var lines := LinesOf(w, path);
    ReceiptsAreComplete(lines, w.nonce);
    var receipts := CreatedFor(ReadReceipts(lines, w.nonce).0, name);
    var e := receipts[|receipts| - 1];
    assert e in receipts && e == Created(name, e.oid);
  }
}
