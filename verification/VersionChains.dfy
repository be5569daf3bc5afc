/** Append-only rows that each name their predecessor: course versions and service activity transitions. */
module VersionChains {
  import opened Prelude

  datatype Rules = CourseVersions | ActivityTransitions

  /** A row of a chain. `owner` is its course or activity, `textOk` says that its text fields are canonical and its
      references match their patterns, `from` and `to` are a transition's states. */
  datatype Row = Row(owner: nat, number: int, predecessor: Option<nat>, action: string, from: Option<string>, to: string,
                     at: int, actor: nat, key: string, lineage: string, textOk: bool)

  type Rows = map<nat, Row>

  const CREATE := "CREATE"
  const APPEND := "APPEND_VERSION"

  datatype Refusal =
    | Malformed | BadInitial | PredecessorMissing | OtherOwner | NotConsecutive | BadSuccessor | TimeNotIncreasing
    | OwnerMissing | BadEdge | NumberTaken | RequestRepeated | SecondInitial | Forked | LineageRepeated

  // ---------------------------------------------------------------- one insert

  /** `clean` of the two models: the row against its predecessor, nothing else. */
  function Cleaned(rules: Rules, rows: Rows, r: Row): Option<Refusal> {
    match r.predecessor
    case None =>
      if r.number != 1 || (if rules.CourseVersions? then r.action != CREATE else r.from.Some?) then Some(BadInitial)
      else if !r.textOk then Some(Malformed) else None
    case Some(p) =>
      if p !in rows then Some(PredecessorMissing)
      else if rows[p].owner != r.owner then Some(OtherOwner)
      else if r.number != rows[p].number + 1 then Some(NotConsecutive)
      else if rules.CourseVersions? && r.action != APPEND then Some(BadSuccessor)
      else if rules.CourseVersions? && r.at <= rows[p].at then Some(TimeNotIncreasing)
      else if !r.textOk then Some(Malformed) else None
  }

  /** The unique constraints of the two tables. */
  predicate NumberFree(rows: Rows, r: Row) { forall k | k in rows :: !(rows[k].owner == r.owner && rows[k].number == r.number) }
  predicate RequestNew(rows: Rows, r: Row) {
    forall k | k in rows :: !(rows[k].actor == r.actor && rows[k].action == r.action && rows[k].key == r.key)
  }
  predicate OneInitial(rows: Rows, r: Row) {
    r.predecessor.None? ==> forall k | k in rows :: !(rows[k].owner == r.owner && rows[k].predecessor.None?)
  }
  predicate Unforked(rows: Rows, r: Row) { r.predecessor.Some? ==> forall k | k in rows :: rows[k].predecessor != r.predecessor }
  predicate LineageNew(rows: Rows, r: Row) { forall k | k in rows :: rows[k].lineage != r.lineage }

  const STATES := {"unassigned", "assigned", "in_progress", "submitted", "reviewed", "completed", "declined", "cancelled"}

  /** The edge constraint on transitions: what each action leads from and to. */
  predicate EdgeValid(rules: Rules, r: Row) {
    rules.CourseVersions?
    || (r.action == CREATE && r.from == None && r.to == "unassigned")
    || (r.action == "ASSIGN" && r.from == Some("unassigned") && r.to == "assigned")
    || (r.action == "ACCEPT_ASSIGNMENT" && r.from == Some("assigned") && r.to == "in_progress")
    || (r.action == "DECLINE_ASSIGNMENT" && r.from == Some("assigned") && r.to == "declined")
    || (r.action == "SUBMIT_WORK" && r.from == Some("in_progress") && r.to == "submitted")
    || (r.action == "REVIEW_WORK" && r.from == Some("submitted") && r.to == "reviewed")
    || (r.action == "COMPLETE_ACTIVITY" && r.from == Some("reviewed") && r.to == "completed")
    || (r.action == "CANCEL_ACTIVITY" && r.from.Some? && r.to == "cancelled"
        && r.from.value in {"unassigned", "assigned", "in_progress", "submitted", "reviewed"})
  }

  predicate Accepts(rules: Rules, rows: Rows, owners: set<nat>, r: Row) {
    && Cleaned(rules, rows, r).None? && r.owner in owners
    && EdgeValid(rules, r)
    && NumberFree(rows, r) && RequestNew(rows, r) && OneInitial(rows, r) && Unforked(rows, r) && LineageNew(rows, r)
  }

  // ---------------------------------------------------------------- the invariant

  ghost predicate Linear(rules: Rules, rows: Rows) {
    && (forall k | k in rows :: rows[k].number >= 1 && (rows[k].predecessor.None? <==> rows[k].number == 1))
    && (forall k, p | k in rows && rows[k].predecessor == Some(p) :: Follows(rules, rows, k, p))
    && (forall a, b | a in rows && b in rows && rows[a].owner == rows[b].owner && rows[a].number == rows[b].number :: a == b)
  }

  predicate Follows(rules: Rules, rows: Rows, k: nat, p: nat)
    requires k in rows
  {
    p in rows && rows[p].owner == rows[k].owner && rows[k].number == rows[p].number + 1
    && (rules.CourseVersions? ==> rows[p].at < rows[k].at)
  }

  lemma InsertKeeps(rules: Rules, rows: Rows, owners: set<nat>, r: Row, key: nat)
    requires Linear(rules, rows) && Accepts(rules, rows, owners, r) && key !in rows
    ensures Linear(rules, rows[key := r])
  {
    hide RequestNew; hide LineageNew; hide OneInitial; hide Unforked; hide EdgeValid;
  }

  // ---------------------------------------------------------------- the chain as a list

  /** The chain up to a row, by walking predecessors. */
  ghost function Walk(rules: Rules, rows: Rows, k: nat): (r: seq<nat>)
    requires Linear(rules, rows) && k in rows
    ensures |r| == rows[k].number && r[|r| - 1] == k
    decreases rows[k].number
  {
    match rows[k].predecessor
    case None => [k]
    case Some(p) => assert Follows(rules, rows, k, p); Walk(rules, rows, p) + [k]
  }

  /** The walk visits the numbers from 1 on, one row each, and in a course every version is later than the one before. */
  lemma {:induction false} WalkIsNumbered(rules: Rules, rows: Rows, k: nat)
    requires Linear(rules, rows) && k in rows
    ensures var w := Walk(rules, rows, k);
            && (forall i | 0 <= i < |w| :: w[i] in rows && rows[w[i]].owner == rows[k].owner && rows[w[i]].number == i + 1)
            && rows[w[0]].predecessor.None? && (forall i | 0 < i < |w| :: rows[w[i]].predecessor == Some(w[i - 1]))
            && (rules.CourseVersions? ==> forall i, j | 0 <= i < j < |w| :: rows[w[i]].at < rows[w[j]].at)
    decreases rows[k].number
  {
    if rows[k].predecessor.Some? {
      var p := rows[k].predecessor.value;
      assert Follows(rules, rows, k, p);
      WalkIsNumbered(rules, rows, p);
    }
  }

  /** Looking a version up by its number gives the row that walking back from any later one meets. */
  lemma LookupAgreesWithWalk(rules: Rules, rows: Rows, later: nat, k: nat)
    requires Linear(rules, rows) && later in rows && k in rows
    requires rows[k].owner == rows[later].owner && rows[k].number <= rows[later].number
    ensures Walk(rules, rows, later)[rows[k].number - 1] == k
  {
    WalkIsNumbered(rules, rows, later);
  }

  predicate IsHead(rows: Rows, owner: nat, k: nat) {
    k in rows && rows[k].owner == owner && forall j | j in rows && rows[j].owner == owner :: rows[j].number <= rows[k].number
  }

  predicate HasRows(rows: Rows, owner: nat) { exists k :: k in rows && rows[k].owner == owner }

  function RowsOf(rows: Rows, owner: nat): set<nat> { set k | k in rows && rows[k].owner == owner }

  lemma {:induction false} HeadExists(rows: Rows, owner: nat, left: set<nat>, best: nat)
    requires best in rows && rows[best].owner == owner && left <= RowsOf(rows, owner)
    requires forall j | j in RowsOf(rows, owner) && j !in left :: rows[j].number <= rows[best].number
    ensures exists k :: IsHead(rows, owner, k)
    decreases left
  {
    if left == {} {
      assert IsHead(rows, owner, best);
    } else {
      var j :| j in left;
      HeadExists(rows, owner, left - {j}, if rows[j].number > rows[best].number then j else best);
    }
  }

  /** Each owner's rows are one unforked chain numbered 1..n: its head is the only row without a successor, and
      walking back from it lists every row exactly once. */
  lemma OneChain(rules: Rules, rows: Rows, owner: nat)
    requires Linear(rules, rows) && HasRows(rows, owner)
    ensures exists head :: IsHead(rows, owner, head) && WholeChain(rules, rows, owner, head)
  {
    var any :| any in rows && rows[any].owner == owner;
    HeadExists(rows, owner, RowsOf(rows, owner), any);
    var head :| IsHead(rows, owner, head);
    HeadListsAll(rules, rows, owner, head);
  }

  ghost predicate WholeChain(rules: Rules, rows: Rows, owner: nat, head: nat)
    requires Linear(rules, rows) && head in rows
  {
    var w := Walk(rules, rows, head);
    && (forall k :: k in w <==> k in RowsOf(rows, owner)) && Distinct(w) && |w| == |RowsOf(rows, owner)| == rows[head].number
    && (forall k | k in RowsOf(rows, owner) && k != head :: exists s :: s in rows && rows[s].predecessor == Some(k))
    && (forall s | s in rows :: rows[s].predecessor != Some(head))
  }

  lemma HeadListsAll(rules: Rules, rows: Rows, owner: nat, head: nat)
    requires Linear(rules, rows) && IsHead(rows, owner, head)
    ensures WholeChain(rules, rows, owner, head)
  {
    var w := Walk(rules, rows, head);
    WalkIsNumbered(rules, rows, head);
    forall k | k in RowsOf(rows, owner) ensures k in w { LookupAgreesWithWalk(rules, rows, head, k); }
    SizeOfDistinct(w, RowsOf(rows, owner));
    forall k | k in RowsOf(rows, owner) && k != head ensures exists s :: s in rows && rows[s].predecessor == Some(k) {
      LookupAgreesWithWalk(rules, rows, head, k);
      assert rows[w[rows[k].number]].predecessor == Some(k);
    }
    forall s | s in rows ensures rows[s].predecessor != Some(head) {
      assert rows[s].predecessor == Some(head) ==> Follows(rules, rows, s, head);
    }
  }

  lemma {:induction false} SizeOfDistinct(w: seq<nat>, s: set<nat>)
    requires Distinct(w) && forall k :: k in w <==> k in s
    ensures |w| == |s|
  {
    if w == [] {
      assert s == {};
    } else {
      var last := w[|w| - 1];
      assert w == w[..|w| - 1] + [last];
      SizeOfDistinct(w[..|w| - 1], s - {last});
    }
  }

  /** What an insert may be: the next number after the head (or 1, without a predecessor and by a CREATE, on an empty
      chain), of the right kind and time, along an edge of the workflow, under a request and a lineage not used before. */
  lemma AcceptedIffAppends(rules: Rules, rows: Rows, owners: set<nat>, r: Row)
    requires Linear(rules, rows)
    ensures Accepts(rules, rows, owners, r) <==>
            && r.owner in owners && r.textOk
            && (rules.ActivityTransitions? ==> r.to in NextStates(r.from) && r.action == ActionInto(r.to))
            && (forall k | k in rows :: rows[k].lineage != r.lineage
                                        && (rows[k].actor, rows[k].action, rows[k].key) != (r.actor, r.action, r.key))
            && match r.predecessor
               case None => !HasRows(rows, r.owner) && r.number == 1
                            && r.action == CREATE && (rules.CourseVersions? || r.from.None?)
               case Some(p) => IsHead(rows, r.owner, p) && r.number == rows[p].number + 1
                               && (rules.CourseVersions? ==> r.action == APPEND && rows[p].at < r.at)
  {
    hide EdgeValid;
    EdgeIff(r);
    assert rules.CourseVersions? ==> EdgeValid(rules, r) by { CoursesHaveNoEdges(r); }
    OpensWithCreate(rules, r);
    if r.predecessor.Some? {
      SuccessorOnlyAtHead(rules, rows, r, r.predecessor.value);
    } else {
      InitialOnlyOnEmpty(rules, rows, r);
    }
  }

  lemma CoursesHaveNoEdges(r: Row)
    ensures EdgeValid(CourseVersions, r)
  {
  }

  // ---------------------------------------------------------------- the workflow of activities

  /** Where an activity can go. Three states are final. */
  function NextStates(from: Option<string>): set<string> {
    match from
    case None => {"unassigned"}
    case Some(s) =>
      (if s == "unassigned" then {"assigned", "cancelled"}
       else if s == "assigned" then {"in_progress", "declined", "cancelled"}
       else if s == "in_progress" then {"submitted", "cancelled"}
       else if s == "submitted" then {"reviewed", "cancelled"}
       else if s == "reviewed" then {"completed", "cancelled"}
       else {})
  }

  /** The action is known by the state it leads to. */
  function ActionInto(to: string): string {
    if to == "unassigned" then CREATE
    else if to == "assigned" then "ASSIGN"
    else if to == "in_progress" then "ACCEPT_ASSIGNMENT"
    else if to == "declined" then "DECLINE_ASSIGNMENT"
    else if to == "submitted" then "SUBMIT_WORK"
    else if to == "reviewed" then "REVIEW_WORK"
    else if to == "completed" then "COMPLETE_ACTIVITY"
    else "CANCEL_ACTIVITY"
  }

  /** The edge constraint is the workflow: the next state decides the action. */
  lemma EdgeIff(r: Row)
    ensures EdgeValid(ActivityTransitions, r) <==> r.to in NextStates(r.from) && r.action == ActionInto(r.to)
  {
    WordsDiffer();
  }

  /** The names of states, and of actions, are all different. */
  lemma WordsDiffer()
    ensures Distinct(["unassigned", "assigned", "in_progress", "submitted", "reviewed", "completed", "declined", "cancelled"])
  {
    assert |"unassigned"| == 10 && |"assigned"| == 8 && |"in_progress"| == 11 && |"submitted"| == 9 && |"reviewed"| == 8;
    assert |"completed"| == 9 && |"declined"| == 8 && |"cancelled"| == 9;
    assert "assigned"[0] == 'a' && "reviewed"[0] == 'r' && "declined"[0] == 'd';
    assert "submitted"[0] == 's' && "completed"[0] == 'c' && "cancelled"[0] == 'c' && "completed"[1] == 'o' && "cancelled"[1] == 'a';
  }

  /** Every transition follows the workflow and starts where the one before it ended. The table enforces the former. */
  ghost predicate Continuous(rows: Rows) {
    && (forall k | k in rows :: EdgeValid(ActivityTransitions, rows[k]) && (rows[k].predecessor.None? ==> rows[k].from.None?))
    && (forall k, p | k in rows && rows[k].predecessor == Some(p) && p in rows :: rows[k].from == Some(rows[p].to))
  }

  /** How far an activity is when it has not left the straight path. */
  function Stage(state: string): int {
    if state == "unassigned" then 1 else if state == "assigned" then 2 else if state == "in_progress" then 3
    else if state == "submitted" then 4 else if state == "reviewed" then 5 else 6
  }

  /** A continuous history is the straight path from its creation on, up to its last row: the number tells the state,
      unless the activity was declined (third) or cancelled (after at most five rows). */
  lemma {:induction false} StraightPath(rows: Rows, k: nat)
    requires Linear(ActivityTransitions, rows) && Continuous(rows) && k in rows
    ensures rows[k].to == "cancelled" ==> 2 <= rows[k].number <= 6
    ensures rows[k].to == "declined" ==> rows[k].number == 3
    ensures rows[k].to != "cancelled" && rows[k].to != "declined" ==> rows[k].number == Stage(rows[k].to)
    decreases rows[k].number
  {
    hide EdgeValid;
    EdgeIff(rows[k]);
    WordsDiffer();
    if rows[k].predecessor.Some? {
      var p := rows[k].predecessor.value;
      assert Follows(ActivityTransitions, rows, k, p);
      StraightPath(rows, p);
    }
  }

  /** A finished activity stays finished: nothing follows a row that completed, declined or cancelled it, and no history
      is longer than six rows. */
  lemma FinishedIsFinal(rows: Rows, k: nat, next: nat)
    requires Linear(ActivityTransitions, rows) && Continuous(rows) && k in rows && next in rows
    ensures rows[k].number <= 6
    ensures rows[k].to in {"completed", "declined", "cancelled"} ==> rows[next].predecessor != Some(k)
  {
    hide EdgeValid;
    StraightPath(rows, k);
    WordsDiffer();
    EdgeIff(rows[next]);
  }

  /** Only CREATE leads from no state. */
  lemma OpensWithCreate(rules: Rules, r: Row)
    ensures EdgeValid(rules, r) && rules.ActivityTransitions? ==> (r.from.None? <==> r.action == CREATE)
    ensures EdgeValid(rules, r) && rules.ActivityTransitions? ==> r.to in STATES && (r.from.Some? ==> r.from.value in STATES)
  {
    assert CREATE[0] == 'C' && CREATE[1] == 'R';
  }

  lemma InitialOnlyOnEmpty(rules: Rules, rows: Rows, r: Row)
    requires Linear(rules, rows) && r.predecessor.None?
    ensures OneInitial(rows, r) <==> !HasRows(rows, r.owner)
    ensures r.number == 1 && OneInitial(rows, r) ==> NumberFree(rows, r) && Unforked(rows, r)
  {
    forall k | k in rows && rows[k].owner == r.owner ensures !OneInitial(rows, r) {
      WalkIsNumbered(rules, rows, k);
      var first := Walk(rules, rows, k)[0];
      assert rows[first].owner == r.owner && rows[first].predecessor.None?;
    }
  }

  lemma SuccessorOnlyAtHead(rules: Rules, rows: Rows, r: Row, p: nat)
    requires Linear(rules, rows) && r.predecessor == Some(p)
    ensures p in rows && rows[p].owner == r.owner && r.number == rows[p].number + 1
            ==> (NumberFree(rows, r) && Unforked(rows, r) <==> IsHead(rows, r.owner, p)) && OneInitial(rows, r)
  {
    if p in rows && rows[p].owner == r.owner && r.number == rows[p].number + 1 {
      forall j | j in rows && rows[j].owner == r.owner && rows[j].number > rows[p].number ensures !NumberFree(rows, r) {
        WalkIsNumbered(rules, rows, j);
        var s := Walk(rules, rows, j)[rows[p].number];
        assert rows[s].owner == r.owner && rows[s].number == r.number;
      }
      if IsHead(rows, r.owner, p) { HeadHasNoSuccessor(rules, rows, r, p); }
    }
  }

  lemma HeadHasNoSuccessor(rules: Rules, rows: Rows, r: Row, p: nat)
    requires Linear(rules, rows) && IsHead(rows, r.owner, p) && r.predecessor == Some(p) && r.number == rows[p].number + 1
    ensures NumberFree(rows, r) && Unforked(rows, r)
  {
    forall s | s in rows ensures rows[s].predecessor != Some(p) {
      assert rows[s].predecessor == Some(p) ==> Follows(rules, rows, s, p);
    }
  }

  // ---------------------------------------------------------------- the writes

  /** `save` of a new row: `clean`, then the constraints of the table. */
  method CheckRow(rules: Rules, rows: Rows, owners: set<nat>, row: Row) returns (r: Option<Refusal>)
    ensures r.None? <==> Accepts(rules, rows, owners, row)
  {
    var bad := Cleaned(rules, rows, row);
    if bad.Some? { return bad; }
    if row.owner !in owners { return Some(OwnerMissing); }
    if !EdgeValid(rules, row) { return Some(BadEdge); }
    if !NumberFree(rows, row) { return Some(NumberTaken); }
    if !RequestNew(rows, row) { return Some(RequestRepeated); }
    if !OneInitial(rows, row) { return Some(SecondInitial); }
    if !Unforked(rows, row) { return Some(Forked); }
    if !LineageNew(rows, row) { return Some(LineageRepeated); }
    return None;
  }

  /** The transitions of service activities: the same chains, without the times. */
  class Transitions {
    const activities: set<nat>
    var rows: Rows

    constructor (activities: set<nat>)
      ensures Linear(ActivityTransitions, rows) && rows == map[] && this.activities == activities
    {
      this.activities, rows := activities, map[];
    }

    method Insert(key: nat, row: Row) returns (r: Option<Refusal>)
      requires Linear(ActivityTransitions, rows) && key !in rows
      modifies this
      ensures Linear(ActivityTransitions, rows)
      ensures r.None? <==> Accepts(ActivityTransitions, old(rows), activities, row)
      ensures rows == if r.None? then old(rows)[key := row] else old(rows)
    {
      hide Linear; hide Accepts;
      r := CheckRow(ActivityTransitions, rows, activities, row);
      if r.None? {
        InsertKeeps(ActivityTransitions, rows, activities, row, key);
        rows := rows[key := row];
      }
    }
  }
}
