/** What `order_by(...)` promises: a total order on ranks, its first element, and sorting. */
module Ordering {

  /** A sort key ending in the primary key, so no two rows compare equal. */
  datatype Rank = Rank(group: int, at: int, id: nat)

  predicate Before(a: Rank, b: Rank) {
    a.group < b.group
    || (a.group == b.group && (a.at < b.at || (a.at == b.at && a.id <= b.id)))
  }

  ghost predicate IsFirst(ids: set<nat>, rank: nat -> Rank, m: nat) {
    m in ids && forall j | j in ids :: Before(rank(m), rank(j))
  }

  ghost predicate Keyed(ids: set<nat>, rank: nat -> Rank) {
    forall j | j in ids :: rank(j).id == j
  }

  lemma {:induction false} FirstExists(ids: set<nat>, rank: nat -> Rank)
    requires ids != {}
    ensures exists m :: IsFirst(ids, rank, m)
    decreases |ids|
  {
    var x :| x in ids;
    if ids == {x} {
      assert IsFirst(ids, rank, x);
    } else {
      var rest := ids - {x};
      assert |rest| < |ids|;
      assert rest != {};
      FirstExists(rest, rank);
      var m :| IsFirst(rest, rank, m);
      var best := if Before(rank(x), rank(m)) then x else m;
      forall j | j in ids ensures Before(rank(best), rank(j)) {
        if j != x { assert j in rest; }
      }
      assert IsFirst(ids, rank, best);
    }
  }

  /** `.order_by(...).first()` on a non-empty selection. */
  function First(ids: set<nat>, rank: nat -> Rank): (m: nat)
    requires ids != {} && Keyed(ids, rank)
    ensures IsFirst(ids, rank, m)
  {
    FirstExists(ids, rank);
    var m :| m in ids && forall j | j in ids :: Before(rank(m), rank(j));
    m
  }

  /** `.order_by(...)` as a list. */
  function Sorted(ids: set<nat>, rank: nat -> Rank): (r: seq<nat>)
    requires Keyed(ids, rank)
    ensures |r| == |ids|
    ensures forall j :: j in r <==> j in ids
    ensures forall x, y | 0 <= x < y < |r| :: Before(rank(r[x]), rank(r[y])) && r[x] != r[y]
    decreases |ids|
  {
    if ids == {} then []
    else
      var m := First(ids, rank);
      [m] + Sorted(ids - {m}, rank)
  }

  /** `.order_by("number").last()`: the greatest number of a finite set. */
  function Highest(ns: set<nat>): (r: nat)
    requires ns != {}
    ensures r in ns && forall k | k in ns :: k <= r
  {
    HighestExists(ns);
    var r :| r in ns && forall k | k in ns :: k <= r;
    r
  }

  lemma {:induction false} HighestExists(ns: set<nat>)
    requires ns != {}
    ensures exists r :: r in ns && forall k | k in ns :: k <= r
    decreases |ns|
  {
    var x :| x in ns;
    var rest := ns - {x};
    if rest == {} {
      assert ns == {x};
    } else {
      assert |rest| < |ns|;
      HighestExists(rest);
      var r :| r in rest && forall k | k in rest :: k <= r;
      var best := if x <= r then r else x;
      forall k | k in ns ensures k <= best { if k != x { assert k in rest; } }
      assert best in ns && forall k | k in ns :: k <= best;
    }
  }
}
