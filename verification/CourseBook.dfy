/** Courses with their versions, the pointer to the current one, and whole histories of both. The pointer moves
    only through the guarded advance. */
module CourseBook {
  import opened Prelude
  import opened VersionChains

  datatype Course = Course(courseId: nat, createdBy: nat, createdAt: int, current: Option<nat>)

  datatype Book = Book(courses: map<nat, Course>, versions: Rows)

  datatype CourseRefusal = NotDurable | NotYours | IdentityImmutable | ServiceControlled | Stale | NotTheSuccessor | CourseIdTaken

  /** What a caller holds in memory of a stored course. */
  type Loaded = Course

  ghost predicate Inv(b: Book) {
    && Linear(CourseVersions, b.versions)
    && (forall k | k in b.versions :: b.versions[k].owner in b.courses)
    && (forall c | c in b.courses && b.courses[c].current.Some? :: Owns(b, c, b.courses[c].current.value))
    && (forall c, d | c in b.courses && d in b.courses && b.courses[c].courseId == b.courses[d].courseId :: c == d)
  }

  predicate Owns(b: Book, c: nat, v: nat) { v in b.versions && b.versions[v].owner == c }

  /** How far the pointer of a course has come: the number of the current version, or 0. */
  function Position(b: Book, c: nat): int
    requires c in b.courses
  {
    match b.courses[c].current case None => 0 case Some(v) => if v in b.versions then b.versions[v].number else 0
  }

  // ---------------------------------------------------------------- the operations

  class Courses {
    var courses: map<nat, Course>
    var versions: Rows

    ghost function View(): Book
      reads this
    {
      Book(courses, versions)
    }

    constructor ()
      ensures Inv(View()) && courses == map[] && versions == map[]
    {
      courses, versions := map[], map[];
    }

    /** Saving a new course. A version cannot belong to a course that is not stored yet, so a pointer is refused. */
    method AddCourse(key: nat, course: Course) returns (r: Option<CourseRefusal>)
      requires Inv(View()) && key !in courses
      modifies this`courses
      ensures Inv(View())
      ensures r.None? ==> courses == old(courses)[key := course] && course.current.None?
      ensures r.Some? ==> courses == old(courses)
      ensures r.None? <==> course.current.None? && forall c | c in old(courses) :: old(courses)[c].courseId != course.courseId
    {
      if course.current.Some? { return Some(NotYours); }
      if exists c :: c in courses && courses[c].courseId == course.courseId { return Some(CourseIdTaken); }
      courses := courses[key := course];
      return None;
    }

    /** Saving a stored course again changes nothing: any other identity or pointer is refused. */
    method SaveCourse(key: nat, held: Loaded) returns (r: Option<CourseRefusal>)
      requires Inv(View()) && key in courses
      modifies this`courses
      ensures courses == old(courses)
      ensures r.None? <==> held == courses[key]
    {
      var original := courses[key];
      if original.courseId != held.courseId || original.createdBy != held.createdBy || original.createdAt != held.createdAt {
        return Some(IdentityImmutable);
      }
      if original.current != held.current { return Some(ServiceControlled); }
      courses := courses[key := held];
      return None;
    }

    /** Saving a new version. A refusal changes nothing; an accepted row is the next of its course. */
    method InsertVersion(key: nat, row: Row) returns (r: Option<Refusal>)
      requires Inv(View()) && key !in versions
      modifies this`versions
      ensures Inv(View())
      ensures r.None? <==> Accepts(CourseVersions, old(versions), courses.Keys, row)
      ensures versions == if r.None? then old(versions)[key := row] else old(versions)
    {
      hide Linear; hide Accepts;
      r := CheckRow(CourseVersions, versions, courses.Keys, row);
      if r.Some? { return; }
      OwnerIsThere(versions, courses.Keys, row);
      InsertKeeps(CourseVersions, versions, courses.Keys, row, key);
      versions := versions[key := row];
    }

    /** `_advance_current_version`, given the pointer the caller holds in memory. It moves the stored pointer one
        version on or leaves everything as it was. */
    method Advance(key: nat, held: Option<nat>, next: nat) returns (r: Option<CourseRefusal>)
      requires Inv(View()) && key in courses
      modifies this`courses
      ensures Inv(View())
      ensures r.None? ==> courses == old(courses)[key := old(courses)[key].(current := Some(next))]
      ensures r.None? ==> next in versions && versions[next].owner == key && Position(View(), key) == Position(old(View()), key) + 1
      ensures r.Some? ==> courses == old(courses)
      ensures r.None? <==> held == old(courses)[key].current && next in versions && versions[next].owner == key
                           && versions[next].number == Position(old(View()), key) + 1
    {
      if next !in versions { return Some(NotDurable); }
      if courses[key].current != held { return Some(Stale); }
      if versions[next].owner != key { return Some(NotYours); }
      SuccessorByNumber(View(), key, next);
      if versions[next].predecessor != held { return Some(NotTheSuccessor); }
      courses := courses[key := courses[key].(current := Some(next))];
      return None;
    }
  }

  /** In a linear chain, naming the current version as predecessor and being numbered right after it are one. */
  lemma SuccessorByNumber(b: Book, c: nat, next: nat)
    requires Inv(b) && c in b.courses && Owns(b, c, next)
    ensures b.versions[next].predecessor == b.courses[c].current <==> b.versions[next].number == Position(b, c) + 1
  {
    var rows := b.versions;
    if rows[next].predecessor.Some? {
      var p := rows[next].predecessor.value;
      assert Follows(CourseVersions, rows, next, p);
    }
  }

  // ---------------------------------------------------------------- histories

  /** The accepted writes of the tables; a refused one changes nothing. */
  datatype Change = Refused | NewCourse(key: nat, course: Course) | NewVersion(key: nat, row: Row) | Move(c: nat, next: nat)

  ghost predicate Takes(b: Book, change: Change, n: Book) {
    match change
    case Refused => n == b
    case NewCourse(key, course) =>
      key !in b.courses && course.current.None? && (forall c | c in b.courses :: b.courses[c].courseId != course.courseId)
      && n == b.(courses := b.courses[key := course])
    case NewVersion(key, row) =>
      key !in b.versions && Accepts(CourseVersions, b.versions, b.courses.Keys, row) && n == b.(versions := b.versions[key := row])
    case Move(c, next) => Advances(b, c, next) && n == b.(courses := b.courses[c := b.courses[c].(current := Some(next))])
  }

  ghost predicate Step(b: Book, n: Book) { exists change :: Takes(b, change, n) }

  predicate Advances(b: Book, c: nat, next: nat) {
    c in b.courses && Owns(b, c, next) && b.versions[next].predecessor == b.courses[c].current
  }

  ghost predicate IsHistory(bs: seq<Book>) {
    bs != [] && bs[0] == Book(map[], map[]) && forall i | 0 < i < |bs| :: Step(bs[i - 1], bs[i])
  }

  lemma StepKeeps(b: Book, n: Book)
    requires Inv(b) && Step(b, n)
    ensures Inv(n) && Grows(b, n)
  {
    hide Inv; hide Accepts; hide Advances;
    var change :| Takes(b, change, n);
    match change
    case Refused =>
    case NewCourse(key, course) => CourseKeeps(b, key, course);
    case NewVersion(key, row) => VersionKeeps(b, key, row);
    case Move(c, next) => MoveKeeps(b, c, next);
  }

  /** Courses and versions are never removed, and nothing of them but the pointer ever changes. */
  ghost predicate Grows(b: Book, n: Book) {
    && (forall k | k in b.versions :: k in n.versions && n.versions[k] == b.versions[k])
    && (forall c | c in b.courses :: c in n.courses && n.courses[c].(current := None) == b.courses[c].(current := None))
  }

  lemma CourseKeeps(b: Book, key: nat, course: Course)
    requires Inv(b) && key !in b.courses && course.current.None?
    requires forall c | c in b.courses :: b.courses[c].courseId != course.courseId
    ensures Inv(b.(courses := b.courses[key := course]))
  {
    hide Linear;
  }

  lemma VersionKeeps(b: Book, key: nat, row: Row)
    requires Inv(b) && key !in b.versions && Accepts(CourseVersions, b.versions, b.courses.Keys, row)
    ensures Inv(b.(versions := b.versions[key := row]))
  {
    hide Linear; hide Accepts;
    InsertKeeps(CourseVersions, b.versions, b.courses.Keys, row, key);
    OwnerIsThere(b.versions, b.courses.Keys, row);
  }

  lemma MoveKeeps(b: Book, c: nat, next: nat)
    requires Inv(b) && Advances(b, c, next)
    ensures Inv(b.(courses := b.courses[c := b.courses[c].(current := Some(next))]))
  {
    hide Linear;
  }

  lemma OwnerIsThere(rows: Rows, owners: set<nat>, row: Row)
    requires Accepts(CourseVersions, rows, owners, row)
    ensures row.owner in owners
  {
  }

  lemma StepMovesByOne(b: Book, n: Book, c: nat)
    requires Inv(b) && Step(b, n) && c in b.courses && Inv(n) && c in n.courses
    ensures Position(b, c) <= Position(n, c) <= Position(b, c) + 1
  {
    hide Accepts;
    var change :| Takes(b, change, n);
    if change.Move? { SuccessorByNumber(b, change.c, change.next); }
  }

  lemma {:induction false} HistoryKeeps(bs: seq<Book>, i: nat, j: nat)
    requires IsHistory(bs) && i <= j < |bs|
    ensures Inv(bs[i]) && Inv(bs[j]) && Grows(bs[i], bs[j])
    decreases j
  {
    hide Inv; hide Step;
    if j > i {
      HistoryKeeps(bs, i, j - 1);
      StepKeeps(bs[j - 1], bs[j]);
    } else if j > 0 {
      HistoryKeeps(bs, j - 1, j - 1);
      StepKeeps(bs[j - 1], bs[j]);
    } else {
      EmptyBook();
    }
  }

  lemma EmptyBook()
    ensures Inv(Book(map[], map[]))
  {
  }

  /** Over any history the pointer never goes back, and it never passes a version: every number between two of
      its positions was its position at some moment between. */
  lemma {:induction false} PointerTakesEveryStep(bs: seq<Book>, i: nat, j: nat, c: nat)
    requires IsHistory(bs) && i <= j < |bs| && c in bs[i].courses
    ensures c in bs[j].courses && Position(bs[i], c) <= Position(bs[j], c)
    ensures forall m | Position(bs[i], c) <= m <= Position(bs[j], c) :: WasAt(bs, i, j, c, m)
    decreases j
  {
    hide Inv; hide Step; hide IsHistory;
    if j > i {
      HistoryKeeps(bs, i, j - 1);
      HistoryKeeps(bs, i, j);
      StepAt(bs, j);
      PointerTakesEveryStep(bs, i, j - 1, c);
      StepMovesByOne(bs[j - 1], bs[j], c);
      forall m | Position(bs[i], c) <= m <= Position(bs[j], c) ensures WasAt(bs, i, j, c, m) {
        if m == Position(bs[j], c) { assert At(bs, j, c, m); } else { WasAtLonger(bs, i, j, c, m); }
      }
    } else {
      assert At(bs, i, c, Position(bs[i], c));
    }
  }

  lemma StepAt(bs: seq<Book>, j: nat)
    requires IsHistory(bs) && 0 < j < |bs|
    ensures Step(bs[j - 1], bs[j])
  {
  }

  predicate At(bs: seq<Book>, k: nat, c: nat, m: int) {
    k < |bs| && c in bs[k].courses && Position(bs[k], c) == m
  }

  ghost predicate WasAt(bs: seq<Book>, i: nat, j: nat, c: nat, m: int) { exists k :: i <= k <= j && At(bs, k, c, m) }

  lemma WasAtLonger(bs: seq<Book>, i: nat, j: nat, c: nat, m: int)
    requires 0 < j && WasAt(bs, i, j - 1, c, m)
    ensures WasAt(bs, i, j, c, m)
  {
    var k :| i <= k <= j - 1 && At(bs, k, c, m);
  }

  /** A version once current is current, or behind the pointer, ever after; and the pointer always stands on the
      chain: walking back from it meets everything it ever stood on. */
  lemma CurrentStaysBehind(bs: seq<Book>, i: nat, j: nat, c: nat)
    requires IsHistory(bs) && i <= j < |bs| && c in bs[i].courses && bs[i].courses[c].current.Some?
    ensures c in bs[j].courses && bs[j].courses[c].current.Some? && Inv(bs[j])
    ensures var v, w := bs[i].courses[c].current.value, bs[j].courses[c].current.value;
            w in bs[j].versions && v in Walk(CourseVersions, bs[j].versions, w)
  {
    hide Step; hide IsHistory; hide Walk; hide Accepts;
    HistoryKeeps(bs, i, j);
    PointerTakesEveryStep(bs, i, j, c);
    PositivePosition(bs[i], c);
    PositivePosition(bs[j], c);
    var rows := bs[j].versions;
    var v, w := bs[i].courses[c].current.value, bs[j].courses[c].current.value;
    assert Owns(bs[i], c, v) && Owns(bs[j], c, w);
    LookupAgreesWithWalk(CourseVersions, rows, w, v);
  }

  lemma PositivePosition(b: Book, c: nat)
    requires Inv(b) && c in b.courses
    ensures b.courses[c].current.Some? <==> Position(b, c) >= 1
  {
  }
}
