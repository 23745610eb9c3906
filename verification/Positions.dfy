/**
 The `position` column of queue_items, and of the items of one playlist.

 The column is UNIQUE and the database checks the constraint after every row
 it updates, so a statement that renumbers many rows can fail half way even if
 the final numbering is fine.  The source therefore renumbers in two phases
 through negative positions.  Here an UPDATE over many rows visits them in an
 arbitrary order, each row update may be refused, and the contracts say that
 none ever is.
 */
module Positions {
  import opened Wrappers

  type Id = string

  /** The position column, keyed by the primary key. */
  type Column = map<Id, int>

  datatype ColumnError = UniqueViolation | NoSuchRow

  predicate Unique(p: Column) {
    forall a, b :: a in p && b in p && a != b ==> p[a] != p[b]
  }

  predicate NonNegative(p: Column) {
    forall id :: id in p ==> 0 <= p[id]
  }

  predicate Distinct(ids: seq<Id>) {
    forall i, j :: 0 <= i < j < |ids| ==> ids[i] != ids[j]
  }

  /** The rows are numbered 0, 1, 2, ... in the order `ids`. */
  ghost predicate Numbers(p: Column, ids: seq<Id>) {
    && (forall i :: 0 <= i < |ids| ==> ids[i] in p && p[ids[i]] == i)
    && (forall id :: id in p ==> 0 <= p[id] < |ids| && ids[p[id]] == id)
  }

  /** `ids` lists every row once, by increasing position. */
  ghost predicate OrderedBy(p: Column, ids: seq<Id>) {
    && (forall id :: id in p <==> id in ids)
    && (forall i, j :: 0 <= i < j < |ids| ==> p[ids[i]] < p[ids[j]])
  }

  /** One row update under the UNIQUE constraint. */
  function UpdateRow(p: Column, id: Id, v: int): Result<Column, ColumnError> {
    if id !in p then Failure(NoSuchRow)
    else if exists other :: other in p && other != id && p[other] == v then Failure(UniqueViolation)
    else Success(p[id := v])
  }

  lemma UpdateRowAccepted(p: Column, id: Id, v: int)
    requires Unique(p) && id in p
    requires forall other :: other in p && other != id ==> p[other] != v
    ensures UpdateRow(p, id, v) == Success(p[id := v])
    ensures Unique(p[id := v])
  {
  }

  lemma OrderedByTail(p: Column, ids: seq<Id>)
    requires OrderedBy(p, ids) && |ids| > 0
    ensures OrderedBy(p - {ids[0]}, ids[1..])
    ensures forall id :: id in p ==> p[ids[0]] <= p[id]
  {
    forall id | id in p ensures p[ids[0]] <= p[id] {
      var i :| 0 <= i < |ids| && ids[i] == id;
    }
    forall id ensures id in p - {ids[0]} <==> id in ids[1..] {
      if id in p && id != ids[0] {
        var i :| 0 <= i < |ids| && ids[i] == id;
        assert ids[1..][i - 1] == id;
      }
    }
  }

  lemma {:induction false} OrderedByIsUnique(p: Column, a: seq<Id>, b: seq<Id>)
    requires Unique(p) && OrderedBy(p, a) && OrderedBy(p, b)
    ensures a == b
    decreases |a|
  {
    if |b| > 0 {
      assert b[0] in p;
    }
    if |a| > 0 {
      assert a[0] in p;
      OrderedByTail(p, a);
      OrderedByTail(p, b);
      OrderedByIsUnique(p - {a[0]}, a[1..], b[1..]);
      assert a == [a[0]] + a[1..] && b == [b[0]] + b[1..];
    }
  }

  lemma {:induction false} LeastExists(p: Column, s: set<Id>)
    requires s != {} && s <= p.Keys
    ensures exists id :: id in s && forall other :: other in s ==> p[id] <= p[other]
    decreases |s|
  {
    var x :| x in s;
    if s == {x} {
      assert forall other :: other in s ==> p[x] <= p[other];
    } else {
      var rest := s - {x};
      LeastExists(p, rest);
      var m :| m in rest && forall other :: other in rest ==> p[m] <= p[other];
      var id := if p[x] <= p[m] then x else m;
      assert forall other :: other in s ==> p[id] <= p[other] by {
        forall other | other in s ensures p[id] <= p[other] {
          if other != x { assert other in rest; }
        }
      }
    }
  }

  /** The positions left by a delete, seen in order. */
  lemma NumbersDelete(p: Column, ids: seq<Id>, k: nat)
    requires Numbers(p, ids) && k < |ids|
    ensures OrderedBy(p - {ids[k]}, ids[..k] + ids[k + 1..])
    ensures Unique(p - {ids[k]}) && NonNegative(p - {ids[k]})
  {
    NumbersUnique(p, ids);
    var left := ids[..k] + ids[k + 1..];
    assert forall i :: 0 <= i < |left| ==> left[i] == if i < k then ids[i] else ids[i + 1];
    forall id ensures id in p - {ids[k]} <==> id in left {
      DeletedMember(p, ids, k, id);
    }
  }

  lemma NumbersUnique(p: Column, ids: seq<Id>)
    requires Numbers(p, ids)
    ensures Unique(p) && NonNegative(p)
  {
  }

  lemma DeletedMember(p: Column, ids: seq<Id>, k: nat, id: Id)
    requires Numbers(p, ids) && k < |ids|
    ensures id in p && id != ids[k] <==> id in ids[..k] + ids[k + 1..]
  {
    var left := ids[..k] + ids[k + 1..];
    if id in p && id != ids[k] {
      var i := p[id];
      assert left[if i < k then i else i - 1] == id;
    }
    if id in left {
      var i :| 0 <= i < |left| && left[i] == id;
      assert id == ids[if i < k then i else i + 1];
    }
  }

  /** SELECT COALESCE(MAX(position), -1) + 1. */
  method NextFree(p: Column, ghost ids: seq<Id>) returns (next: int)
    requires Numbers(p, ids)
    ensures next == |ids|
  {
    next := 0;
    var remaining := p.Keys;
    while remaining != {}
      invariant remaining <= p.Keys && 0 <= next <= |ids|
      invariant forall id :: id in p && id !in remaining ==> p[id] < next
      decreases remaining
    {
      var id :| id in remaining;
      if next <= p[id] {
        next := p[id] + 1;
      }
      remaining := remaining - {id};
    }
    if |ids| > 0 {
      var last := ids[|ids| - 1];
      assert last in p && p[last] == |ids| - 1;
    }
  }

  /** SELECT id ... ORDER BY position. */
  method SelectIdsByPosition(p: Column) returns (ids: seq<Id>)
    requires Unique(p)
    ensures OrderedBy(p, ids)
  {
    ids := [];
    var remaining := p.Keys;
    while remaining != {}
      invariant remaining <= p.Keys
      invariant forall id :: id in ids <==> id in p && id !in remaining
      invariant forall i, j :: 0 <= i < j < |ids| ==> p[ids[i]] < p[ids[j]]
      invariant forall i, id :: 0 <= i < |ids| && id in remaining ==> p[ids[i]] < p[id]
      decreases remaining
    {
      LeastExists(p, remaining);
      var id :| id in remaining && forall other :: other in remaining ==> p[id] <= p[other];
      ids := ids + [id];
      remaining := remaining - {id};
    }
  }

  /** The rows not in `remaining` already flipped to the other side of zero. */
  ghost predicate Flipping(p: Column, q: Column, remaining: set<Id>) {
    && q.Keys == p.Keys && remaining <= p.Keys
    && (forall id :: id in p ==> q[id] == if id in remaining then p[id] else -p[id] - 1)
  }

  predicate OneSided(p: Column) {
    NonNegative(p) || forall id :: id in p ==> p[id] < 0
  }

  lemma FlipStep(p: Column, q: Column, remaining: set<Id>, id: Id)
    requires Unique(p) && OneSided(p) && Unique(q) && Flipping(p, q, remaining) && id in remaining
    ensures UpdateRow(q, id, -q[id] - 1) == Success(q[id := -q[id] - 1])
    ensures Unique(q[id := -q[id] - 1]) && Flipping(p, q[id := -q[id] - 1], remaining - {id})
  {
    forall other | other in q && other != id ensures q[other] != -q[id] - 1 {
      assert p[other] != p[id];
    }
    UpdateRowAccepted(q, id, -q[id] - 1);
  }

  /**
   UPDATE ... SET position = -position - 1, visiting the rows in any order.
   With all positions on one side of zero no row update is ever refused.
   */
  method NegateAll(p: Column) returns (r: Result<Column, ColumnError>)
    requires Unique(p) && OneSided(p)
    ensures r == Success(map id | id in p :: -p[id] - 1)
  {
    hide Unique, OneSided;
    var q := p;
    var remaining := p.Keys;
    while remaining != {}
      invariant Unique(q) && Flipping(p, q, remaining)
      decreases remaining
    {
      var id :| id in remaining;
      FlipStep(p, q, remaining, id);
      var updated := UpdateRow(q, id, -q[id] - 1);
      if updated.Failure? {
        return updated;
      }
      q := updated.value;
      remaining := remaining - {id};
    }
    assert q == map id | id in p :: -p[id] - 1;
    r := Success(q);
  }

  /** Compaction of `p` in the order `ids`, with the first `i` rows already in place. */
  ghost predicate Compacting(p: Column, q: Column, ids: seq<Id>, i: nat) {
    && OrderedBy(p, ids) && i <= |ids| && q.Keys == p.Keys
    && (forall k :: 0 <= k < |ids| ==> ids[k] in q && q[ids[k]] == if k < i then k else -p[ids[k]] - 1)
  }

  lemma CompactStep(p: Column, q: Column, ids: seq<Id>, i: nat)
    requires NonNegative(p) && Unique(q) && Compacting(p, q, ids, i) && i < |ids|
    ensures UpdateRow(q, ids[i], i) == Success(q[ids[i] := i])
    ensures Unique(q[ids[i] := i]) && Compacting(p, q[ids[i] := i], ids, i + 1)
  {
    forall other | other in q && other != ids[i] ensures q[other] != i {
      var k :| 0 <= k < |ids| && ids[k] == other;
    }
    UpdateRowAccepted(q, ids[i], i);
    forall k | 0 <= k < |ids| && k != i ensures ids[k] != ids[i] {
      assert p[ids[k]] != p[ids[i]];
    }
  }

  lemma CompactDone(p: Column, q: Column, ids: seq<Id>)
    requires Compacting(p, q, ids, |ids|)
    ensures Numbers(q, ids)
  {
    forall id | id in q ensures 0 <= q[id] < |ids| && ids[q[id]] == id {
      var k :| 0 <= k < |ids| && ids[k] == id;
    }
  }

  /** Renumbers the rows 0..n-1 in their present relative order. */
  method Compact(p: Column) returns (r: Result<Column, ColumnError>, ids: seq<Id>)
    requires Unique(p) && NonNegative(p)
    ensures OrderedBy(p, ids)
    ensures r.Success? && r.value.Keys == p.Keys && Numbers(r.value, ids)
  {
    ids := SelectIdsByPosition(p);
    var negated := NegateAll(p);
    var q := negated.value;
    for i := 0 to |ids|
      invariant Unique(q) && Compacting(p, q, ids, i)
    {
      CompactStep(p, q, ids, i);
      var updated := UpdateRow(q, ids[i], i);
      if updated.Failure? {
        return updated, ids;
      }
      q := updated.value;
    }
    CompactDone(p, q, ids);
    r := Success(q);
  }

  lemma {:induction false} DistinctCount(ids: seq<Id>)
    requires Distinct(ids)
    ensures |set id | id in ids| == |ids|
    decreases |ids|
  {
    var all := set id | id in ids;
    if |ids| == 0 {
      assert all == {};
    } else {
      var last := ids[|ids| - 1];
      var front := ids[..|ids| - 1];
      DistinctCount(front);
      assert all == (set id | id in front) + {last};
      assert last !in front;
    }
  }

  lemma {:induction false} SubsetCount(a: set<Id>, b: set<Id>)
    requires a <= b
    ensures |a| <= |b|
    decreases |a|
  {
    if a != {} {
      var x :| x in a;
      SubsetCount(a - {x}, b - {x});
    }
  }

  /** Distinct ids, as many as there are rows and all of them rows, are all the rows. */
  lemma DistinctCovers(rows: set<Id>, ids: seq<Id>)
    requires Distinct(ids) && |ids| == |rows|
    requires forall id :: id in ids ==> id in rows
    ensures forall id :: id in rows ==> id in ids
  {
    var all := set id | id in ids;
    DistinctCount(ids);
    forall id | id in rows ensures id in ids {
      if id !in all {
        SubsetCount(all + {id}, rows);
      }
    }
  }

  /** The first `i` requested rows parked at -1, -2, ...; the others untouched. */
  ghost predicate Parking(p: Column, q: Column, ids: seq<Id>, i: nat) {
    && Distinct(ids) && i <= |ids| && q.Keys == p.Keys
    && (forall k :: 0 <= k < i ==> ids[k] in q && q[ids[k]] == -(k + 1))
    && (forall id :: id in q ==> id in ids[..i] || q[id] == p[id])
  }

  lemma ParkStep(p: Column, q: Column, ids: seq<Id>, i: nat)
    requires NonNegative(p) && Unique(q) && Parking(p, q, ids, i) && i < |ids| && ids[i] in p
    ensures UpdateRow(q, ids[i], -(i + 1)) == Success(q[ids[i] := -(i + 1)])
    ensures Unique(q[ids[i] := -(i + 1)]) && Parking(p, q[ids[i] := -(i + 1)], ids, i + 1)
  {
    forall other | other in q && other != ids[i] ensures q[other] != -(i + 1) {
      if other in ids[..i] {
        var k :| 0 <= k < i && ids[k] == other;
      }
    }
    UpdateRowAccepted(q, ids[i], -(i + 1));
    assert ids[..i + 1] == ids[..i] + [ids[i]];
  }

  lemma ParkedAt(p: Column, q: Column, ids: seq<Id>, id: Id) returns (k: nat)
    requires Parking(p, q, ids, |ids|) && id in q && id in ids
    ensures k < |ids| && ids[k] == id && q[id] == -(k + 1)
  {
    k :| 0 <= k < |ids| && ids[k] == id;
  }

  lemma FlippedNumbers(q: Column, ids: seq<Id>)
    requires forall i :: 0 <= i < |ids| ==> ids[i] in q && q[ids[i]] == -(i + 1)
    requires forall id :: id in q ==> q[id] < 0 && -q[id] - 1 < |ids| && ids[-q[id] - 1] == id
    ensures OneSided(q)
    ensures Numbers(map id | id in q :: -q[id] - 1, ids)
  {
  }

  lemma ParkDone(p: Column, q: Column, ids: seq<Id>)
    requires Parking(p, q, ids, |ids|) && |ids| == |p|
    requires forall id :: id in ids ==> id in p
    ensures OneSided(q)
    ensures Numbers(map id | id in q :: -q[id] - 1, ids)
  {
    forall id | id in q ensures q[id] < 0 && -q[id] - 1 < |ids| && ids[-q[id] - 1] == id {
      EveryRowParked(p, q, ids, id);
    }
    FlippedNumbers(q, ids);
  }

  lemma EveryRowParked(p: Column, q: Column, ids: seq<Id>, id: Id)
    requires Parking(p, q, ids, |ids|) && |ids| == |p| && id in q
    requires forall id :: id in ids ==> id in p
    ensures q[id] < 0 && -q[id] - 1 < |ids| && ids[-q[id] - 1] == id
  {
    hide Parking;
    DistinctIds(p, q, ids);
    DistinctCovers(p.Keys, ids);
    var k := ParkedAt(p, q, ids, id);
  }

  lemma DistinctIds(p: Column, q: Column, ids: seq<Id>)
    requires Parking(p, q, ids, |ids|)
    ensures Distinct(ids) && q.Keys == p.Keys
  {
  }

  /**
   Renumbers the rows 0..n-1 in the requested order: first each requested row
   goes to its own negative position, then all positions are flipped at once.
   */
  method Arrange(p: Column, ids: seq<Id>) returns (r: Result<Column, ColumnError>)
    requires Unique(p) && NonNegative(p)
    requires Distinct(ids) && |ids| == |p|
    ensures r.Success? <==> forall id :: id in ids ==> id in p
    ensures r.Success? ==> r.value.Keys == p.Keys && Numbers(r.value, ids)
    ensures r.Failure? ==> r.error == NoSuchRow
  {
    var q := p;
    for i := 0 to |ids|
      invariant Unique(q) && Parking(p, q, ids, i)
    {
      if ids[i] in q {
        ParkStep(p, q, ids, i);
      }
      var updated := UpdateRow(q, ids[i], -(i + 1));
      if updated.Failure? {
        assert ids[i] in ids;
        return updated;
      }
      q := updated.value;
    }
    assert forall id :: id in ids ==> id in p;
    ParkDone(p, q, ids);
    r := NegateAll(q);
  }
}
