/**
 The queue store over its tables: queue_items as columns keyed by id, and the
 singleton state row.  Each method is one transaction: it writes the tables step
 by step and puts the old rows back when a step fails or, with `fault`, when the
 database cannot commit.  `Valid` and `View` tie the tables to QueueModel.
 */
module QueueStore {
  import opened Wrappers
  import opened Positions
  import opened QueueModel

  /** The tables hold `contents`, item i at position i; all its ids were issued. */
  ghost predicate Tables(rows: map<Id, Item>, position: Column, contents: seq<Item>, issued: set<Id>) {
    && rows.Keys == position.Keys
    && Numbers(position, Ids(contents))
    && (forall i :: 0 <= i < |contents| ==> contents[i].id in rows && rows[contents[i].id] == contents[i])
    && DistinctItems(contents)
    && (forall i :: 0 <= i < |contents| ==> contents[i].id in issued)
  }

  function Outcome(r: Result<QueueState, Error>): Result<(), Error> {
    match r
    case Success(_) => Success(())
    case Failure(e) => Failure(e)
  }

  // ----- reading the tables -----

  /** A lookup by primary key finds the item of the sequence. */
  lemma Lookup(rows: map<Id, Item>, position: Column, contents: seq<Item>, issued: set<Id>, id: Id)
    requires Tables(rows, position, contents, issued)
    ensures id in rows <==> HasId(contents, id)
    ensures id in position <==> id in rows
    ensures id in rows ==> rows[id].id == id && id in issued
  {
    if id in rows {
      var i := position[id];
      assert Ids(contents)[i] == contents[i].id == id;
    }
  }

  lemma LookupStatus(rows: map<Id, Item>, position: Column, contents: seq<Item>, issued: set<Id>,
                     id: Id, status: ItemStatus)
    requires Tables(rows, position, contents, issued)
    ensures (id in rows && rows[id].status == status) <==> HasStatus(contents, id, status)
    ensures HasStatus(contents, id, status) ==> HasId(contents, id)
  {
    if id in rows {
      var i := position[id];
      assert Ids(contents)[i] == contents[i].id == id;
    }
  }

  lemma LookupUrl(rows: map<Id, Item>, position: Column, contents: seq<Item>, issued: set<Id>, url: string)
    requires Tables(rows, position, contents, issued)
    ensures (exists id :: id in rows && rows[id].url == url) <==> HasUrl(contents, url)
  {
    if id :| id in rows && rows[id].url == url {
      var i := position[id];
      assert Ids(contents)[i] == contents[i].id == id;
    }
    if i :| 0 <= i < |contents| && contents[i].url == url {
      assert rows[contents[i].id].url == url;
    }
  }

  lemma LookupAll(rows: map<Id, Item>, position: Column, contents: seq<Item>, issued: set<Id>, ids: seq<Id>)
    requires Tables(rows, position, contents, issued)
    ensures (forall id :: id in ids ==> id in position) <==> (forall id :: id in ids ==> HasId(contents, id))
  {
    forall id | id in ids ensures id in position <==> HasId(contents, id) {
      Lookup(rows, position, contents, issued, id);
    }
  }

  /** Position 0 is the head of the sequence. */
  lemma LookupHead(rows: map<Id, Item>, position: Column, contents: seq<Item>, issued: set<Id>)
    requires Tables(rows, position, contents, issued)
    ensures (exists id :: id in position && position[id] == 0) <==> |contents| > 0
    ensures forall id :: id in position && position[id] == 0 ==>
      id in rows && |contents| > 0 && Without(contents, id) == contents[1..]
  {
    if |contents| > 0 {
      assert position[Ids(contents)[0]] == 0;
      WithoutSplit(contents, 0);
    }
    forall id | id in position && position[id] == 0 ensures |contents| > 0 && id == contents[0].id {
      assert Ids(contents)[0] == id;
    }
  }

  lemma PositionsUsable(rows: map<Id, Item>, position: Column, contents: seq<Item>, issued: set<Id>)
    requires Tables(rows, position, contents, issued)
    ensures Unique(position) && NonNegative(position)
    ensures OrderedBy(position, Ids(contents))
  {
    var ids := Ids(contents);
    forall id ensures id in position <==> id in ids {
      if id in position { assert ids[position[id]] == id; }
    }
  }

  lemma CountRows(rows: map<Id, Item>, position: Column, contents: seq<Item>, issued: set<Id>)
    requires Tables(rows, position, contents, issued)
    ensures |contents| == |rows| == |position|
    ensures Numbers(position, Ids(contents)) && |Ids(contents)| == |contents|
  {
    var ids := Ids(contents);
    PositionsUsable(rows, position, contents, issued);
    forall i, j | 0 <= i < j < |ids| ensures ids[i] != ids[j] {
      assert position[ids[i]] == i && position[ids[j]] == j;
    }
    DistinctCount(ids);
    assert (set id | id in ids) == position.Keys;
    assert |rows| == |rows.Keys| && |position| == |position.Keys|;
  }

  // ----- statements that rewrite rows -----

  lemma RewriteKeepsTables(rows: map<Id, Item>, position: Column, contents: seq<Item>, issued: set<Id>,
                           rows': map<Id, Item>, contents': seq<Item>)
    requires Tables(rows, position, contents, issued)
    requires rows'.Keys == rows.Keys && |contents'| == |contents|
    requires forall i :: 0 <= i < |contents| ==>
      contents'[i].id == contents[i].id && contents'[i].url == contents[i].url
    requires forall i :: 0 <= i < |contents| ==> rows'[contents[i].id] == contents'[i]
    ensures Tables(rows', position, contents', issued)
  {
    assert Ids(contents') == Ids(contents);
  }

  lemma DemoteKeepsTables(rows: map<Id, Item>, position: Column, contents: seq<Item>, issued: set<Id>)
    requires Tables(rows, position, contents, issued)
    ensures Tables(map k | k in rows :: Demote(rows[k]), position, DemoteAll(contents), issued)
  {
    RewriteKeepsTables(rows, position, contents, issued, map k | k in rows :: Demote(rows[k]), DemoteAll(contents));
  }

  lemma RequeueKeepsTables(rows: map<Id, Item>, position: Column, contents: seq<Item>, issued: set<Id>)
    requires Tables(rows, position, contents, issued)
    ensures Tables(map k | k in rows :: Requeue(rows[k]), position, RequeueAll(contents), issued)
  {
    RewriteKeepsTables(rows, position, contents, issued, map k | k in rows :: Requeue(rows[k]), RequeueAll(contents));
  }

  lemma MarkKeepsTables(rows: map<Id, Item>, position: Column, contents: seq<Item>, issued: set<Id>,
                        id: Id, status: ItemStatus, error: string)
    requires Tables(rows, position, contents, issued)
    ensures Tables(map k | k in rows :: Mark(rows[k], id, status, error), position,
                   MarkAll(contents, id, status, error), issued)
  {
    RewriteKeepsTables(rows, position, contents, issued, map k | k in rows :: Mark(rows[k], id, status, error),
                       MarkAll(contents, id, status, error));
  }

  lemma RetitleKeepsTables(rows: map<Id, Item>, position: Column, contents: seq<Item>, issued: set<Id>,
                           current: Option<Id>, title: string)
    requires Tables(rows, position, contents, issued)
    ensures Tables(map k | k in rows :: Retitle(rows[k], current, title), position,
                   RetitleAll(contents, current, title), issued)
  {
    RewriteKeepsTables(rows, position, contents, issued, map k | k in rows :: Retitle(rows[k], current, title),
                       RetitleAll(contents, current, title));
  }

  lemma RetitleNothing(contents: seq<Item>, current: Option<Id>)
    ensures RetitleAll(contents, current, "") == contents
  {
  }

  // ----- statements that delete, insert and move rows -----

  lemma TablesFacts(rows: map<Id, Item>, position: Column, contents: seq<Item>, issued: set<Id>)
    requires Tables(rows, position, contents, issued)
    ensures Numbers(position, Ids(contents)) && DistinctItems(contents)
  {
  }

  lemma IdsWithout(contents: seq<Item>, id: Id) returns (k: nat)
    requires DistinctItems(contents) && HasId(contents, id)
    ensures k < |contents| && Ids(contents)[k] == id
    ensures Ids(Without(contents, id)) == Ids(contents)[..k] + Ids(contents)[k + 1..]
  {
    k :| 0 <= k < |contents| && contents[k].id == id;
    WithoutSplit(contents, k);
  }

  lemma DeletedOrder(rows: map<Id, Item>, position: Column, contents: seq<Item>, issued: set<Id>, id: Id)
    requires Tables(rows, position, contents, issued) && HasId(contents, id)
    ensures OrderedBy(position - {id}, Ids(Without(contents, id)))
    ensures Unique(position - {id}) && NonNegative(position - {id})
  {
    hide Tables, Numbers, OrderedBy, Unique, NonNegative, DistinctItems, HasId, Without;
    TablesFacts(rows, position, contents, issued);
    var k := IdsWithout(contents, id);
    NumbersDelete(position, Ids(contents), k);
  }

  lemma DeletedTables(rows: map<Id, Item>, position: Column, contents: seq<Item>, issued: set<Id>,
                      id: Id, compacted: Column)
    requires Tables(rows, position, contents, issued)
    requires compacted.Keys == position.Keys - {id} && Numbers(compacted, Ids(Without(contents, id)))
    ensures Tables(rows - {id}, compacted, Without(contents, id), issued)
  {
    WithoutKeeps(contents, id);
    var left := Without(contents, id);
    forall i | 0 <= i < |left|
      ensures left[i].id in rows - {id} && rows[left[i].id] == left[i] && left[i].id in issued
    {
      assert left[i] in contents;
    }
  }

  lemma EmptyTables(position: Column, issued: set<Id>)
    requires position.Keys == {}
    ensures position == map[] && Tables(map[], position, [], issued)
  {
    assert position == map[];
  }

  lemma InsertedTables(rows: map<Id, Item>, position: Column, contents: seq<Item>, issued: set<Id>, x: Item)
    requires Tables(rows, position, contents, issued)
    requires !HasId(contents, x.id) && !HasUrl(contents, x.url)
    ensures Tables(rows[x.id := x], position[x.id := |contents|], contents + [x], issued + {x.id})
  {
    assert Ids(contents + [x]) == Ids(contents) + [x.id];
    Lookup(rows, position, contents, issued, x.id);
  }

  lemma ArrangedTables(rows: map<Id, Item>, position: Column, contents: seq<Item>, issued: set<Id>,
                       ids: seq<Id>, arranged: Column)
    requires Tables(rows, position, contents, issued)
    requires Distinct(ids) && forall id :: id in ids ==> HasId(contents, id)
    requires arranged.Keys == position.Keys && Numbers(arranged, ids)
    ensures Tables(rows, arranged, Arranged(contents, ids), issued)
  {
    ArrangedKeeps(contents, ids);
    var after := Arranged(contents, ids);
    forall i | 0 <= i < |after| ensures after[i].id in rows && rows[after[i].id] == after[i] && after[i].id in issued {
      assert after[i] in contents;
    }
  }

  /** Ids drawn for new items are new, and differ from each other. */
  predicate NewIds(issued: set<Id>, ts: seq<Transaction>) {
    && (forall i :: 0 <= i < |ts| && ts[i].Add? ==> ts[i].id !in issued)
    && (forall i, j :: 0 <= i < j < |ts| && ts[i].Add? && ts[j].Add? ==> ts[i].id != ts[j].id)
  }

  lemma {:induction false} RunIssues(q: QueueState, ts: seq<Transaction>, id: Id)
    ensures id in Run(q, ts).issued ==> id in q.issued || exists i :: 0 <= i < |ts| && ts[i].Add? && ts[i].id == id
    decreases |ts|
  {
    if |ts| > 0 {
      RunIssues(Apply(q, ts[0]), ts[1..], id);
      if i :| 0 <= i < |ts[1..]| && ts[1..][i].Add? && ts[1..][i].id == id {
        assert ts[i + 1].Add? && ts[i + 1].id == id;
      }
    }
  }

  /** Ids new before a batch of edits, and not used by it, are new after it. */
  lemma NewAfterRun(q: QueueState, first: seq<Transaction>, second: seq<Transaction>)
    requires NewIds(q.issued, first + second)
    ensures NewIds(q.issued, first) && NewIds(Run(q, first).issued, second)
  {
    var all := first + second;
    assert forall i :: 0 <= i < |first| ==> all[i] == first[i];
    assert forall j :: 0 <= j < |second| ==> all[|first| + j] == second[j];
    forall j | 0 <= j < |second| && second[j].Add? ensures second[j].id !in Run(q, first).issued {
      RunIssues(q, first, second[j].id);
      assert second[j].id == all[|first| + j].id;
    }
  }

  // ----- outcomes -----

  lemma ReorderRefused(q: QueueState, ids: seq<Id>, expected: int)
    ensures !Distinct(ids) ==> Transact(q, Transaction.Reorder(ids, expected)) == Failure(NotFound)
    ensures Distinct(ids) && q.revision != expected ==>
      Transact(q, Transaction.Reorder(ids, expected)) == Failure(Conflict)
    ensures Distinct(ids) && q.revision == expected
            && (|ids| != |q.items| || exists id :: id in ids && !HasId(q.items, id)) ==>
      Transact(q, Transaction.Reorder(ids, expected)) == Failure(NotFound)
  {
    hide Distinct, HasId;
  }

  lemma ReorderAccepted(q: QueueState, ids: seq<Id>, expected: int)
    requires Distinct(ids) && q.revision == expected && |ids| == |q.items|
    requires forall id :: id in ids ==> HasId(q.items, id)
    ensures Transact(q, Transaction.Reorder(ids, expected)) ==
      Success(q.(items := Arranged(q.items, ids), revision := q.revision + 1))
  {
    hide Distinct, HasId, Arranged;
  }

  lemma ChoiceOutcome(q: QueueState, id: Id)
    ensures Transact(q, Transaction.SetCurrent(id)) ==
      if !HasStatus(DemoteAll(q.items), id, Queued) then Failure(NotFound)
      else Success(q.(items := MarkAll(DemoteAll(q.items), id, Current, ""),
                      playback := Cleared(q.playback, Loading, "").(current := Some(id))))
  {
    hide HasStatus, DemoteAll, MarkAll, Cleared;
  }

  class Store {
    var rows: map<Id, Item>
    var position: Column
    var revision: nat
    var playback: Playback
    ghost var contents: seq<Item>
    ghost var issued: set<Id>

    ghost predicate Valid()
      reads this
    {
      Tables(rows, position, contents, issued)
    }

    ghost function View(): QueueState
      reads this
    {
      QueueState(revision, contents, playback, issued)
    }

    constructor ()
      ensures Valid() && View() == EMPTY_QUEUE
    {
      rows, position, contents, issued := map[], map[], [], {};
      revision, playback := EMPTY_QUEUE.revision, EMPTY_QUEUE.playback;
    }

    /** The first query of a snapshot. */
    method ReadState() returns (revision: nat, playback: Playback)
      ensures revision == this.revision && playback == this.playback
    {
      return this.revision, this.playback;
    }

    /** The second query of a snapshot: the rows by position. */
    method ReadItems() returns (items: seq<Item>)
      requires Valid()
      ensures items == contents
    {
      PositionsUsable(rows, position, contents, issued);
      var ids := SelectIdsByPosition(position);
      OrderedByIsUnique(position, ids, Ids(contents));
      items := [];
      for i := 0 to |ids|
        invariant items == contents[..i]
      {
        assert ids[i] == contents[i].id;
        items := items + [rows[ids[i]]];
      }
    }

    /** Ids are random; the one assumption is that the id of a deleted row never comes back. */
    method Add(id: Id, kind: string, url: string, title: string, submitter: string, limit: int, fault: bool)
      returns (r: Result<(), Error>)
      requires Valid()
      requires id in issued ==> HasId(contents, id)
      modifies this
      ensures Valid()
      ensures fault ==> r.Failure? && View() == old(View())
      ensures !fault ==> r == Outcome(Transact(old(View()), Transaction.Add(id, kind, url, title, submitter, limit)))
      ensures !fault ==> View() == Apply(old(View()), Transaction.Add(id, kind, url, title, submitter, limit))
    {
      hide Tables;
      CountRows(rows, position, contents, issued);
      Lookup(rows, position, contents, issued, id);
      LookupUrl(rows, position, contents, issued, url);
      var next := NextFree(position, Ids(contents));
      if |rows| >= limit {
        return Failure(Full);
      }
      var item := Item(id, kind, url, title, submitter, Queued, "");
      if id in rows || exists other :: other in rows && rows[other].url == url {
        return Failure(Duplicate);
      }
      InsertedTables(rows, position, contents, issued, item);
      if fault {
        return Failure(Storage);
      }
      rows, position := rows[id := item], position[id := next];
      revision := revision + 1;
      contents, issued := contents + [item], issued + {id};
      return Success(());
    }

    /** DELETE of one row, then compaction, inside a transaction. */
    method DeleteAndCompact(id: Id)
      requires Valid() && id in rows
      modifies this`rows, this`position, this`contents
      ensures Valid() && contents == Without(old(contents), id)
    {
      hide Tables, Numbers, OrderedBy, Unique, NonNegative, Without, Ids, HasId;
      Lookup(rows, position, contents, issued, id);
      DeletedOrder(rows, position, contents, issued, id);
      ghost var oldRows, oldPosition := rows, position;
      rows, position := rows - {id}, position - {id};
      var compacted, ids := Compact(position);
      OrderedByIsUnique(position, ids, Ids(Without(contents, id)));
      DeletedTables(oldRows, oldPosition, contents, issued, id, compacted.value);
      position := compacted.value;
      contents := Without(contents, id);
    }

    method Remove(id: Id, expected: int, fault: bool) returns (r: Result<(), Error>)
      requires Valid()
      modifies this
      ensures Valid()
      ensures fault ==> r.Failure? && View() == old(View())
      ensures !fault ==> r == Outcome(Transact(old(View()), Transaction.Remove(id, expected)))
      ensures !fault ==> View() == Apply(old(View()), Transaction.Remove(id, expected))
    {
      hide Tables;
      var savedRows, savedPosition, savedRevision := rows, position, revision;
      ghost var savedContents := contents;
      Lookup(rows, position, contents, issued, id);
      if revision != expected {
        return Failure(Conflict);
      }
      if id !in rows {
        return Failure(NotFound);
      }
      DeleteAndCompact(id);
      revision := revision + 1;
      if fault {
        rows, position, revision, contents := savedRows, savedPosition, savedRevision, savedContents;
        return Failure(Storage);
      }
      return Success(());
    }

    method Clear(expected: int, fault: bool) returns (r: Result<(), Error>)
      requires Valid()
      modifies this
      ensures Valid()
      ensures fault ==> r.Failure? && View() == old(View())
      ensures !fault ==> r == Outcome(Transact(old(View()), Transaction.Clear(expected)))
      ensures !fault ==> View() == Apply(old(View()), Transaction.Clear(expected))
    {
      hide Tables;
      var savedRows, savedPosition, savedRevision := rows, position, revision;
      ghost var savedContents := contents;
      if revision != expected {
        return Failure(Conflict);
      }
      rows, position := map[], map[];
      var compacted, ids := Compact(position);
      EmptyTables(compacted.value, issued);
      position := compacted.value;
      revision := revision + 1;
      contents := [];
      if fault {
        rows, position, revision, contents := savedRows, savedPosition, savedRevision, savedContents;
        return Failure(Storage);
      }
      return Success(());
    }

    /** Deletes the row at position 0, whatever its status. */
    method Skip(expected: int, fault: bool) returns (r: Result<(), Error>)
      requires Valid()
      modifies this
      ensures Valid()
      ensures fault ==> r.Failure? && View() == old(View())
      ensures !fault ==> r == Outcome(Transact(old(View()), Transaction.Skip(expected)))
      ensures !fault ==> View() == Apply(old(View()), Transaction.Skip(expected))
    {
      hide Tables;
      var savedRows, savedPosition, savedRevision := rows, position, revision;
      ghost var savedContents := contents;
      if revision != expected {
        return Failure(Conflict);
      }
      LookupHead(rows, position, contents, issued);
      if !exists id :: id in position && position[id] == 0 {
        return Failure(NotFound);
      }
      var id :| id in position && position[id] == 0;
      DeleteAndCompact(id);
      revision := revision + 1;
      if fault {
        rows, position, revision, contents := savedRows, savedPosition, savedRevision, savedContents;
        return Failure(Storage);
      }
      return Success(());
    }

    method HasDuplicate(ids: seq<Id>) returns (b: bool)
      ensures b == !Distinct(ids)
    {
      var seen: set<Id> := {};
      for i := 0 to |ids|
        invariant seen == set id | id in ids[..i]
        invariant Distinct(ids[..i])
      {
        if ids[i] in seen {
          var k :| 0 <= k < i && ids[..i][k] == ids[i];
          assert ids[k] == ids[i];
          return true;
        }
        seen := seen + {ids[i]};
        assert ids[..i + 1] == ids[..i] + [ids[i]];
      }
      assert ids[..|ids|] == ids;
      return false;
    }

    /** The renumbering of a reorder, inside a transaction; it stops at an unknown id. */
    method ArrangeRows(ids: seq<Id>) returns (found: bool)
      requires Valid() && Distinct(ids) && |ids| == |contents|
      modifies this`position, this`contents
      ensures Valid() && (found <==> forall id :: id in ids ==> HasId(old(contents), id))
      ensures found ==> contents == Arranged(old(contents), ids)
      ensures !found ==> position == old(position) && contents == old(contents)
    {
      hide Tables, Numbers, OrderedBy, Unique, NonNegative, Distinct, HasId, Ids, Arranged;
      CountRows(rows, position, contents, issued);
      PositionsUsable(rows, position, contents, issued);
      LookupAll(rows, position, contents, issued, ids);
      var arranged := Arrange(position, ids);
      if arranged.Failure? {
        return false;
      }
      ArrangedTables(rows, position, contents, issued, ids, arranged.value);
      position, contents := arranged.value, Arranged(contents, ids);
      return true;
    }

    method Reorder(ids: seq<Id>, expected: int, fault: bool) returns (r: Result<(), Error>)
      requires Valid()
      modifies this
      ensures Valid()
      ensures fault ==> r.Failure? && View() == old(View())
      ensures !fault ==> r == Outcome(Transact(old(View()), Transaction.Reorder(ids, expected)))
      ensures !fault ==> View() == Apply(old(View()), Transaction.Reorder(ids, expected))
    {
      hide Tables, Distinct, HasId, Arranged, Transact;
      var savedPosition, savedRevision := position, revision;
      ghost var savedContents := contents;
      CountRows(rows, position, contents, issued);
      ReorderRefused(View(), ids, expected);
      var duplicate := HasDuplicate(ids);
      if duplicate {
        return Failure(NotFound);
      }
      if revision != expected {
        return Failure(Conflict);
      }
      if |ids| != |rows| {
        return Failure(NotFound);
      }
      ghost var q := View();
      var found := ArrangeRows(ids);
      if !found {
        return Failure(NotFound);
      }
      ReorderAccepted(q, ids, expected);
      revision := revision + 1;
      if fault {
        position, revision, contents := savedPosition, savedRevision, savedContents;
        return Failure(Storage);
      }
      return Success(());
    }

    method SetCurrent(id: Id, fault: bool) returns (r: Result<(), Error>)
      requires Valid()
      modifies this
      ensures Valid()
      ensures fault ==> r.Failure? && View() == old(View())
      ensures !fault ==> r == Outcome(Transact(old(View()), Transaction.SetCurrent(id)))
      ensures !fault ==> View() == Apply(old(View()), Transaction.SetCurrent(id))
    {
      hide Tables, Transact, HasStatus, DemoteAll, MarkAll, Cleared, Demote, Mark;
      ChoiceOutcome(View(), id);
      var savedRows, savedPlayback := rows, playback;
      ghost var savedContents := contents;
      DemoteKeepsTables(rows, position, contents, issued);
      rows := map k | k in rows :: Demote(rows[k]);
      contents := DemoteAll(contents);
      LookupStatus(rows, position, contents, issued, id, Queued);
      if !(id in rows && rows[id].status == Queued) {
        rows, contents := savedRows, savedContents;
        return Failure(NotFound);
      }
      MarkKeepsTables(rows, position, contents, issued, id, Current, "");
      rows := map k | k in rows :: Mark(rows[k], id, Current, "");
      contents := MarkAll(contents, id, Current, "");
      playback := Cleared(playback, Loading, "").(current := Some(id));
      if fault {
        rows, playback, contents := savedRows, savedPlayback, savedContents;
        return Failure(Storage);
      }
      return Success(());
    }

    method UpdatePlayback(seen: Playback, fault: bool) returns (r: Result<(), Error>)
      requires Valid()
      modifies this
      ensures Valid()
      ensures fault ==> r.Failure? && View() == old(View())
      ensures !fault ==> r == Outcome(Transact(old(View()), Transaction.UpdatePlayback(seen)))
      ensures !fault ==> View() == Apply(old(View()), Transaction.UpdatePlayback(seen))
    {
      hide Tables;
      var savedRows, savedPlayback := rows, playback;
      ghost var savedContents := contents;
      if !ValidVolume(seen.volume) {
        return Failure(Storage);
      }
      playback := Observed(playback, seen);
      RetitleKeepsTables(rows, position, contents, issued, playback.current, seen.title);
      RetitleNothing(contents, playback.current);
      if seen.title != "" {
        rows := map k | k in rows :: Retitle(rows[k], playback.current, seen.title);
      }
      contents := RetitleAll(contents, playback.current, seen.title);
      if fault {
        rows, playback, contents := savedRows, savedPlayback, savedContents;
        return Failure(Storage);
      }
      return Success(());
    }

    method SetVolume(volume: int, fault: bool) returns (r: Result<(), Error>)
      requires Valid()
      modifies this
      ensures Valid()
      ensures fault ==> r.Failure? && View() == old(View())
      ensures !fault ==> r == Outcome(Transact(old(View()), Transaction.SetVolume(volume)))
      ensures !fault ==> View() == Apply(old(View()), Transaction.SetVolume(volume))
    {
      hide Tables;
      if fault || !ValidVolume(volume) {
        return Failure(Storage);
      }
      playback := playback.(volume := volume);
      return Success(());
    }

    method SetPaused(paused: bool, fault: bool) returns (r: Result<(), Error>)
      requires Valid()
      modifies this
      ensures Valid()
      ensures fault ==> r.Failure? && View() == old(View())
      ensures !fault ==> r == Outcome(Transact(old(View()), Transaction.SetPaused(paused)))
      ensures !fault ==> View() == Apply(old(View()), Transaction.SetPaused(paused))
    {
      hide Tables;
      if fault {
        return Failure(Storage);
      }
      playback := playback.(paused := paused, status := PauseStatus(playback, paused));
      return Success(());
    }

    method Finish(id: Id, failure: Option<string>, fault: bool) returns (r: Result<(), Error>)
      requires Valid()
      modifies this
      ensures Valid()
      ensures fault ==> r.Failure? && View() == old(View())
      ensures !fault ==> r == Outcome(Transact(old(View()), Transaction.Finish(id, failure)))
      ensures !fault ==> View() == Apply(old(View()), Transaction.Finish(id, failure))
    {
      hide Tables;
      var savedRows, savedPosition, savedRevision, savedPlayback := rows, position, revision, playback;
      ghost var savedContents := contents;
      LookupStatus(rows, position, contents, issued, id, Current);
      if !(id in rows && rows[id].status == Current) {
        return Failure(NotFound);
      }
      match failure {
        case None =>
          DeleteAndCompact(id);
          playback := Cleared(playback, Idle, "");
        case Some(message) =>
          MarkKeepsTables(rows, position, contents, issued, id, Failed, message);
          rows := map k | k in rows :: Mark(rows[k], id, Failed, message);
          contents := MarkAll(contents, id, Failed, message);
          playback := Cleared(playback, Idle, message);
      }
      revision := revision + 1;
      if fault {
        rows, position, revision, playback := savedRows, savedPosition, savedRevision, savedPlayback;
        contents := savedContents;
        return Failure(Storage);
      }
      return Success(());
    }

    method Retry(id: Id, message: string, fault: bool) returns (r: Result<(), Error>)
      requires Valid()
      modifies this
      ensures Valid()
      ensures fault ==> r.Failure? && View() == old(View())
      ensures !fault ==> r == Outcome(Transact(old(View()), Transaction.Retry(id, message)))
      ensures !fault ==> View() == Apply(old(View()), Transaction.Retry(id, message))
    {
      hide Tables;
      var savedRows, savedPlayback := rows, playback;
      ghost var savedContents := contents;
      LookupStatus(rows, position, contents, issued, id, Current);
      if !(id in rows && rows[id].status == Current) {
        return Failure(NotFound);
      }
      MarkKeepsTables(rows, position, contents, issued, id, Queued, message);
      rows := map k | k in rows :: Mark(rows[k], id, Queued, message);
      contents := MarkAll(contents, id, Queued, message);
      playback := Cleared(playback, Retrying, message);
      if fault {
        rows, playback, contents := savedRows, savedPlayback, savedContents;
        return Failure(Storage);
      }
      return Success(());
    }

    method Reset(status: PlaybackStatus, message: string, fault: bool) returns (r: Result<(), Error>)
      requires Valid()
      modifies this
      ensures Valid()
      ensures fault ==> r.Failure? && View() == old(View())
      ensures !fault ==> r == Outcome(Transact(old(View()), Transaction.Reset(status, message)))
      ensures !fault ==> View() == Apply(old(View()), Transaction.Reset(status, message))
    {
      hide Tables;
      if fault {
        return Failure(Storage);
      }
      playback := Cleared(playback, status, message);
      return Success(());
    }

    method Recover(fault: bool) returns (r: Result<(), Error>)
      requires Valid()
      modifies this
      ensures Valid()
      ensures fault ==> r.Failure? && View() == old(View())
      ensures !fault ==> r == Outcome(Transact(old(View()), Transaction.Recover))
      ensures !fault ==> View() == Apply(old(View()), Transaction.Recover)
    {
      hide Tables;
      var savedRows, savedPlayback := rows, playback;
      ghost var savedContents := contents;
      RequeueKeepsTables(rows, position, contents, issued);
      rows := map k | k in rows :: Requeue(rows[k]);
      contents := RequeueAll(contents);
      playback := Cleared(playback, Idle, "");
      if fault {
        rows, playback, contents := savedRows, savedPlayback, savedContents;
        return Failure(Storage);
      }
      return Success(());
    }

    /** Any one transaction. */
    method Perform(t: Transaction, fault: bool) returns (r: Result<(), Error>)
      requires Valid()
      requires t.Add? && t.id in issued ==> HasId(contents, t.id)
      modifies this
      ensures Valid()
      ensures fault ==> r.Failure? && View() == old(View())
      ensures !fault ==> r == Outcome(Transact(old(View()), t)) && View() == Apply(old(View()), t)
    {
      hide Tables, Transact;
      match t {
        case Add(id, kind, url, title, submitter, limit) => r := Add(id, kind, url, title, submitter, limit, fault);
        case Remove(id, expected) => r := Remove(id, expected, fault);
        case Clear(expected) => r := Clear(expected, fault);
        case Skip(expected) => r := Skip(expected, fault);
        case Reorder(ids, expected) => r := Reorder(ids, expected, fault);
        case SetCurrent(id) => r := SetCurrent(id, fault);
        case UpdatePlayback(state) => r := UpdatePlayback(state, fault);
        case SetVolume(volume) => r := SetVolume(volume, fault);
        case SetPaused(paused) => r := SetPaused(paused, fault);
        case Finish(id, failure) => r := Finish(id, failure, fault);
        case Retry(id, message) => r := Retry(id, message, fault);
        case Reset(status, message) => r := Reset(status, message, fault);
        case Recover => r := Recover(fault);
      }
    }

    /** Transactions of others, one after the other. */
    method PerformAll(ts: seq<Transaction>)
      requires Valid() && NewIds(issued, ts)
      modifies this
      ensures Valid() && View() == Run(old(View()), ts)
    {
      hide Apply, Transact, Tables;
      ghost var q := View();
      for k := 0 to |ts|
        invariant Valid() && View() == Run(q, ts[..k])
      {
        assert ts[..k] + ts[k..] == ts;
        NewAfterRun(q, ts[..k], ts[k..]);
        assert ts[k..][0] == ts[k];
        var r := Perform(ts[k], false);
        RunConcat(q, ts[..k], [ts[k]]);
        assert ts[..k] + [ts[k]] == ts[..k + 1];
        assert Run(Run(q, ts[..k]), [ts[k]]) == Apply(Run(q, ts[..k]), ts[k]);
      }
      assert ts[..|ts|] == ts;
    }
  }
}
