/**
 What each queue transaction does, on values.

 The queue is the sequence of its items (item i has position i) plus the single
 state row.  `Transact` gives the outcome of one transaction; QueueStore proves
 that the table code computes it.  This module proves what transactions keep,
 whatever clients and the playback controller interleave.
 */
module QueueModel {
  import opened Wrappers
  import opened Positions

  datatype ItemStatus = Queued | Current | Failed

  datatype PlaybackStatus = Idle | Loading | Playing | Paused | Buffering | Retrying | Unavailable | Stopped

  datatype Item = Item(id: Id, kind: string, url: string, title: string, submitter: string,
                       status: ItemStatus, error: string)

  datatype Playback = Playback(status: PlaybackStatus, current: Option<Id>, title: string,
                               position: real, duration: real, paused: bool, buffering: bool,
                               volume: int, error: string)

  /** `issued` holds every id the queue ever gave to an item. */
  datatype QueueState = QueueState(revision: nat, items: seq<Item>, playback: Playback, issued: set<Id>)

  datatype Error = Duplicate | NotFound | Conflict | Full | Storage

  datatype Transaction =
    | Add(id: Id, kind: string, url: string, title: string, submitter: string, limit: int)
    | Remove(id: Id, expected: int)
    | Clear(expected: int)
    | Skip(expected: int)
    | Reorder(ids: seq<Id>, expected: int)
    | SetCurrent(id: Id)
    | UpdatePlayback(state: Playback)
    | SetVolume(volume: int)
    | SetPaused(paused: bool)
    | Finish(id: Id, failure: Option<string>)
    | Retry(id: Id, message: string)
    | Reset(status: PlaybackStatus, message: string)
    | Recover

  const EMPTY_QUEUE: QueueState :=
    QueueState(0, [], Playback(Idle, None, "", 0.0, 0.0, false, false, 100, ""), {})

  // ----- rows -----

  function Ids(items: seq<Item>): (ids: seq<Id>) {
    seq(|items|, i requires 0 <= i < |items| => items[i].id)
  }

  predicate HasId(items: seq<Item>, id: Id) {
    exists i :: 0 <= i < |items| && items[i].id == id
  }

  predicate HasUrl(items: seq<Item>, url: string) {
    exists i :: 0 <= i < |items| && items[i].url == url
  }

  predicate DistinctItems(items: seq<Item>) {
    forall i, j :: 0 <= i < j < |items| ==> items[i].id != items[j].id && items[i].url != items[j].url
  }

  function Find(items: seq<Item>, id: Id): (x: Item)
    requires HasId(items, id)
    ensures x.id == id && x in items
  {
    if items[0].id == id then items[0] else Find(items[1..], id)
  }

  /** The other rows, in their order. */
  function Without(items: seq<Item>, id: Id): seq<Item> {
    if |items| == 0 then []
    else if items[0].id == id then Without(items[1..], id)
    else [items[0]] + Without(items[1..], id)
  }

  predicate HasStatus(items: seq<Item>, id: Id, status: ItemStatus) {
    exists i :: 0 <= i < |items| && items[i].id == id && items[i].status == status
  }

  function Demote(x: Item): Item {
    if x.status == Current then x.(status := Queued, error := "") else x
  }

  function DemoteAll(items: seq<Item>): seq<Item> {
    seq(|items|, i requires 0 <= i < |items| => Demote(items[i]))
  }

  function Mark(x: Item, id: Id, status: ItemStatus, error: string): Item {
    if x.id == id then x.(status := status, error := error) else x
  }

  function MarkAll(items: seq<Item>, id: Id, status: ItemStatus, error: string): seq<Item> {
    seq(|items|, i requires 0 <= i < |items| => Mark(items[i], id, status, error))
  }

  /** A crash recovery keeps the error text, unlike `Demote`. */
  function Requeue(x: Item): Item {
    if x.status == Current then x.(status := Queued) else x
  }

  function RequeueAll(items: seq<Item>): seq<Item> {
    seq(|items|, i requires 0 <= i < |items| => Requeue(items[i]))
  }

  /** The stream title reaches the row only if it has none yet or is a direct stream. */
  function Retitle(x: Item, current: Option<Id>, title: string): Item {
    if title != "" && current == Some(x.id) && x.title != title && (x.title == "" || x.kind == "direct")
    then x.(title := title) else x
  }

  function RetitleAll(items: seq<Item>, current: Option<Id>, title: string): seq<Item> {
    seq(|items|, i requires 0 <= i < |items| => Retitle(items[i], current, title))
  }

  function Arranged(items: seq<Item>, ids: seq<Id>): seq<Item>
    requires forall id :: id in ids ==> HasId(items, id)
  {
    seq(|ids|, i requires 0 <= i < |ids| => Find(items, ids[i]))
  }

  // ----- the state row -----

  function Cleared(p: Playback, status: PlaybackStatus, message: string): Playback {
    Playback(status, None, "", 0.0, 0.0, false, false, p.volume, message)
  }

  function Observed(p: Playback, seen: Playback): Playback {
    seen.(current := p.current)
  }

  /** The CASE expression of the pause command. */
  function PauseStatus(p: Playback, paused: bool): PlaybackStatus {
    if p.buffering then Buffering
    else if paused then Paused
    else if p.status == Paused then Playing
    else p.status
  }

  predicate ValidVolume(volume: int) { 0 <= volume <= 100 }

  // ----- transactions -----

  /** A guarded edit: refused on a stale revision, otherwise raises the revision. */
  function Edited(s: QueueState, expected: int, edit: Result<seq<Item>, Error>): Result<QueueState, Error> {
    if s.revision != expected then Failure(Conflict)
    else match edit
      case Failure(e) => Failure(e)
      case Success(items) => Success(s.(items := items, revision := s.revision + 1))
  }

  function AddItem(s: QueueState, id: Id, kind: string, url: string, title: string, submitter: string,
                   limit: int): Result<QueueState, Error>
  {
    if |s.items| >= limit then Failure(Full)
    else if id in s.issued || HasUrl(s.items, url) then Failure(Duplicate)
    else Success(s.(items := s.items + [Item(id, kind, url, title, submitter, Queued, "")],
                    revision := s.revision + 1, issued := s.issued + {id}))
  }

  function Reordered(s: QueueState, ids: seq<Id>, expected: int): Result<QueueState, Error> {
    if !Distinct(ids) then Failure(NotFound)
    else Edited(s, expected,
                if |ids| != |s.items| then Failure(NotFound)
                else if forall id :: id in ids ==> HasId(s.items, id) then Success(Arranged(s.items, ids))
                else Failure(NotFound))
  }

  function Finished(s: QueueState, id: Id, failure: Option<string>): Result<QueueState, Error> {
    if !HasStatus(s.items, id, Current) then Failure(NotFound)
    else match failure
      case None => Success(s.(items := Without(s.items, id), revision := s.revision + 1,
                              playback := Cleared(s.playback, Idle, "")))
      case Some(message) => Success(s.(items := MarkAll(s.items, id, Failed, message), revision := s.revision + 1,
                                       playback := Cleared(s.playback, Idle, message)))
  }

  function MadeCurrent(s: QueueState, id: Id): Result<QueueState, Error> {
    if !HasStatus(DemoteAll(s.items), id, Queued) then Failure(NotFound)
    else Success(s.(items := MarkAll(DemoteAll(s.items), id, Current, ""),
                    playback := Cleared(s.playback, Loading, "").(current := Some(id))))
  }

  function Transact(s: QueueState, t: Transaction): Result<QueueState, Error> {
    match t
    case Add(id, kind, url, title, submitter, limit) => AddItem(s, id, kind, url, title, submitter, limit)
    case Remove(id, expected) =>
      Edited(s, expected, if HasId(s.items, id) then Success(Without(s.items, id)) else Failure(NotFound))
    case Clear(expected) => Edited(s, expected, Success([]))
    case Skip(expected) =>
      Edited(s, expected, if |s.items| > 0 then Success(s.items[1..]) else Failure(NotFound))
    case Reorder(ids, expected) => Reordered(s, ids, expected)
    case SetCurrent(id) => MadeCurrent(s, id)
    case UpdatePlayback(seen) =>
      if ValidVolume(seen.volume)
      then Success(s.(playback := Observed(s.playback, seen),
                      items := RetitleAll(s.items, s.playback.current, seen.title)))
      else Failure(Storage)
    case SetVolume(volume) =>
      if ValidVolume(volume) then Success(s.(playback := s.playback.(volume := volume))) else Failure(Storage)
    case SetPaused(paused) =>
      Success(s.(playback := s.playback.(paused := paused, status := PauseStatus(s.playback, paused))))
    case Finish(id, failure) => Finished(s, id, failure)
    case Retry(id, message) =>
      if HasStatus(s.items, id, Current)
      then Success(s.(items := MarkAll(s.items, id, Queued, message),
                      playback := Cleared(s.playback, Retrying, message)))
      else Failure(NotFound)
    case Reset(status, message) => Success(s.(playback := Cleared(s.playback, status, message)))
    case Recover => Success(s.(items := RequeueAll(s.items), playback := Cleared(s.playback, Idle, "")))
  }

  /** A refused transaction is rolled back. */
  function Apply(s: QueueState, t: Transaction): QueueState {
    match Transact(s, t)
    case Success(s') => s'
    case Failure(_) => s
  }

  function Run(s: QueueState, ts: seq<Transaction>): QueueState
    decreases |ts|
  {
    if |ts| == 0 then s else Run(Apply(s, ts[0]), ts[1..])
  }

  lemma {:induction false} RunConcat(s: QueueState, a: seq<Transaction>, b: seq<Transaction>)
    ensures Run(s, a + b) == Run(Run(s, a), b)
    decreases |a|
  {
    if |a| == 0 {
      assert a + b == b;
    } else {
      assert (a + b)[0] == a[0] && (a + b)[1..] == a[1..] + b;
      RunConcat(Apply(s, a[0]), a[1..], b);
    }
  }

  // ----- facts about rows -----

  lemma {:induction false} WithoutKeeps(items: seq<Item>, id: Id)
    ensures forall x :: x in Without(items, id) <==> x in items && x.id != id
    ensures !HasId(Without(items, id), id)
    ensures DistinctItems(items) ==> DistinctItems(Without(items, id))
    ensures |Without(items, id)| <= |items|
    decreases |items|
  {
    if |items| > 0 {
      WithoutKeeps(items[1..], id);
      assert items == [items[0]] + items[1..];
      var rest := Without(items[1..], id);
      if DistinctItems(items) && items[0].id != id {
        forall j | 0 <= j < |rest| ensures rest[j].id != items[0].id && rest[j].url != items[0].url {
          assert rest[j] in items[1..];
        }
      }
    }
  }

  lemma {:induction false} WithoutAbsent(items: seq<Item>, id: Id)
    requires !HasId(items, id)
    ensures Without(items, id) == items
    decreases |items|
  {
    if |items| > 0 {
      assert items[0].id != id;
      assert forall i :: 0 <= i < |items[1..]| ==> items[1..][i] == items[i + 1];
      WithoutAbsent(items[1..], id);
    }
  }

  /** With distinct ids, deleting by id deletes exactly one row and closes the gap. */
  lemma {:induction false} WithoutSplit(items: seq<Item>, k: nat)
    requires k < |items| && DistinctItems(items)
    ensures Without(items, items[k].id) == items[..k] + items[k + 1..]
    decreases k
  {
    if k == 0 {
      assert !HasId(items[1..], items[0].id);
      WithoutAbsent(items[1..], items[0].id);
      assert items[..0] + items[1..] == items[1..];
    } else {
      WithoutSplit(items[1..], k - 1);
      assert items[1..][k - 1] == items[k];
      assert items[..k] + items[k + 1..] == [items[0]] + (items[1..][..k - 1] + items[1..][k..]);
    }
  }

  lemma ArrangedKeeps(items: seq<Item>, ids: seq<Id>)
    requires DistinctItems(items) && Distinct(ids)
    requires forall id :: id in ids ==> HasId(items, id)
    ensures DistinctItems(Arranged(items, ids))
    ensures Ids(Arranged(items, ids)) == ids
    ensures forall x :: x in Arranged(items, ids) ==> x in items
  {
    var r := Arranged(items, ids);
    forall i, j | 0 <= i < j < |r| ensures r[i].id != r[j].id && r[i].url != r[j].url {
      assert r[i].id == ids[i] && r[j].id == ids[j];
      assert r[i] in items && r[j] in items;
    }
  }

  // ----- the invariant of the store -----

  ghost predicate OneCurrent(items: seq<Item>) {
    forall i, j :: 0 <= i < j < |items| ==> !(items[i].status == Current && items[j].status == Current)
  }

  /** The persisted status agrees with the persisted flags. */
  predicate Normal(p: Playback) {
    && (p.status == Buffering <==> p.buffering)
    && (p.status == Paused <==> p.paused && !p.buffering)
  }

  /** While an item is named current, its row, if still there, is the only current row. */
  ghost predicate CurrentAgrees(s: QueueState) {
    s.playback.current.Some? ==>
      && s.playback.current.value in s.issued
      && forall i :: 0 <= i < |s.items| ==>
           (s.items[i].status == Current <==> s.items[i].id == s.playback.current.value)
  }

  ghost predicate Inv(s: QueueState) {
    && DistinctItems(s.items)
    && (forall i :: 0 <= i < |s.items| ==> s.items[i].id in s.issued)
    && OneCurrent(s.items)
    && CurrentAgrees(s)
    && Normal(s.playback)
    && ValidVolume(s.playback.volume)
  }

  /** Player states are written with agreeing flags (see Player), resets with a flagless status. */
  predicate WellDriven(t: Transaction) {
    match t
    case UpdatePlayback(seen) => Normal(seen)
    case Reset(status, _) => status != Buffering && status != Paused
    case _ => true
  }

  lemma EditKeepsInv(s: QueueState, items: seq<Item>)
    requires Inv(s) && DistinctItems(items)
    requires forall x :: x in items ==> x in s.items
    ensures Inv(s.(items := items, revision := s.revision + 1))
  {
    forall i, j | 0 <= i < j < |items| ensures !(items[i].status == Current && items[j].status == Current) {
      assert items[i] in s.items && items[j] in s.items;
    }
    forall i | 0 <= i < |items| ensures items[i] in s.items {}
  }

  lemma AddKeepsInv(s: QueueState, t: Transaction)
    requires Inv(s) && t.Add?
    ensures Inv(Apply(s, t))
  {
  }

  lemma ChosenRow(items: seq<Item>, id: Id, k: nat)
    requires k < |items|
    ensures var x := MarkAll(DemoteAll(items), id, Current, "")[k];
      && x.id == items[k].id && x.url == items[k].url
      && (x.status == Current <==> items[k].id == id)
  {
  }

  lemma ChosenKeepsInv(s: QueueState, items: seq<Item>, playback: Playback, id: Id)
    requires Inv(s) && |items| == |s.items| && id in s.issued
    requires forall k :: 0 <= k < |items| ==>
      items[k].id == s.items[k].id && items[k].url == s.items[k].url
      && (items[k].status == Current <==> s.items[k].id == id)
    requires playback.current == Some(id) && Normal(playback) && ValidVolume(playback.volume)
    ensures Inv(s.(items := items, playback := playback))
  {
  }

  /** An item made current is the only current one, whatever was current before. */
  lemma SetCurrentKeepsInv(s: QueueState, id: Id)
    requires Inv(s)
    ensures Inv(Apply(s, SetCurrent(id)))
  {
    if MadeCurrent(s, id).Success? {
      var i :| 0 <= i < |s.items| && Demote(s.items[i]).id == id;
      assert s.items[i].id in s.issued;
      var items := MarkAll(DemoteAll(s.items), id, Current, "");
      forall k | 0 <= k < |items|
        ensures items[k].id == s.items[k].id && items[k].url == s.items[k].url
                && (items[k].status == Current <==> s.items[k].id == id)
      {
        ChosenRow(s.items, id, k);
      }
      NormalIsKept(s);
      hide Inv;
      ChosenKeepsInv(s, items, Cleared(s.playback, Loading, "").(current := Some(id)), id);
    }
  }

  /** Taking the mark `current` off the one item that has it leaves none. */
  lemma UnmarkKeepsInv(s: QueueState, id: Id, status: ItemStatus, error: string, revision: nat, playback: Playback)
    requires Inv(s) && HasStatus(s.items, id, Current) && status != Current
    requires playback.current == None && Normal(playback) && ValidVolume(playback.volume)
    ensures Inv(QueueState(revision, MarkAll(s.items, id, status, error), playback, s.issued))
  {
    var items := MarkAll(s.items, id, status, error);
    var i :| 0 <= i < |s.items| && s.items[i].id == id && s.items[i].status == Current;
    assert forall k :: 0 <= k < |items| ==>
      items[k].id == s.items[k].id && items[k].url == s.items[k].url && items[k].status != Current;
  }

  lemma OutcomeKeepsInv(s: QueueState, t: Transaction)
    requires Inv(s) && (t.Retry? || t.Finish?)
    ensures Inv(Apply(s, t))
  {
    if Transact(s, t).Success? {
      NormalIsKept(s);
      hide Inv, HasStatus, Normal;
      if t.Retry? {
        UnmarkKeepsInv(s, t.id, Queued, t.message, s.revision, Cleared(s.playback, Retrying, t.message));
      } else if t.failure.Some? {
        var message := t.failure.value;
        UnmarkKeepsInv(s, t.id, Failed, message, s.revision + 1, Cleared(s.playback, Idle, message));
      } else {
        FinishKeepsInv(s, t.id);
      }
    }
  }

  lemma NormalIsKept(s: QueueState)
    requires Inv(s)
    ensures forall status, message :: status != Buffering && status != Paused ==>
      Normal(Cleared(s.playback, status, message))
    ensures ValidVolume(s.playback.volume)
  {
  }

  lemma FinishKeepsInv(s: QueueState, id: Id)
    requires Inv(s)
    ensures Inv(s.(items := Without(s.items, id), revision := s.revision + 1,
                   playback := Cleared(s.playback, Idle, "")))
  {
    WithoutKeeps(s.items, id);
    EditKeepsInv(s, Without(s.items, id));
  }

  lemma PlayerStateKeepsInv(s: QueueState, t: Transaction)
    requires Inv(s) && WellDriven(t)
    requires t.UpdatePlayback? || t.SetVolume? || t.SetPaused? || t.Reset? || t.Recover?
    ensures Inv(Apply(s, t))
  {
  }

  /** Every transaction, accepted or refused, keeps the invariant. */
  lemma TransactionKeepsInv(s: QueueState, t: Transaction)
    requires Inv(s) && WellDriven(t)
    ensures Inv(Apply(s, t))
  {
    match t
    case Add(_, _, _, _, _, _) => AddKeepsInv(s, t);
    case Remove(id, expected) =>
      WithoutKeeps(s.items, id);
      EditKeepsInv(s, Without(s.items, id));
    case Clear(expected) => EditKeepsInv(s, []);
    case Skip(expected) =>
      if |s.items| > 0 { EditKeepsInv(s, s.items[1..]); }
    case Reorder(ids, expected) =>
      if Transact(s, t).Success? {
        ArrangedKeeps(s.items, ids);
        EditKeepsInv(s, Arranged(s.items, ids));
      }
    case SetCurrent(id) => SetCurrentKeepsInv(s, id);
    case Finish(_, _) => OutcomeKeepsInv(s, t);
    case Retry(_, _) => OutcomeKeepsInv(s, t);
    case UpdatePlayback(_) => PlayerStateKeepsInv(s, t);
    case SetVolume(_) => PlayerStateKeepsInv(s, t);
    case SetPaused(_) => PlayerStateKeepsInv(s, t);
    case Reset(_, _) => PlayerStateKeepsInv(s, t);
    case Recover => PlayerStateKeepsInv(s, t);
  }

  lemma {:induction false} RunKeepsInv(s: QueueState, ts: seq<Transaction>)
    requires Inv(s) && forall i :: 0 <= i < |ts| ==> WellDriven(ts[i])
    ensures Inv(Run(s, ts))
    decreases |ts|
  {
    if |ts| > 0 {
      TransactionKeepsInv(s, ts[0]);
      RunKeepsInv(Apply(s, ts[0]), ts[1..]);
    }
  }

  /** In every reachable state, under every interleaving of transactions. */
  lemma ReachableStates(ts: seq<Transaction>)
    requires forall i :: 0 <= i < |ts| ==> WellDriven(ts[i])
    ensures Inv(Run(EMPTY_QUEUE, ts))
  {
    RunKeepsInv(EMPTY_QUEUE, ts);
  }

  // ----- no lost update -----

  /** What an item is, as opposed to how its playback goes. */
  datatype Identity = Identity(id: Id, kind: string, url: string, submitter: string)

  function Identities(items: seq<Item>): seq<Identity> {
    seq(|items|, i requires 0 <= i < |items| => Identity(items[i].id, items[i].kind, items[i].url, items[i].submitter))
  }

  /** A commit either leaves the sequence of items alone or raises the revision by one. */
  lemma CommitRaisesRevision(s: QueueState, t: Transaction)
    ensures s.revision <= Apply(s, t).revision <= s.revision + 1
    ensures Apply(s, t).revision == s.revision ==> Identities(Apply(s, t).items) == Identities(s.items)
  {
  }

  /** Along a run the revision determines the sequence of items. */
  lemma {:induction false} RevisionDeterminesItems(s: QueueState, ts: seq<Transaction>)
    ensures s.revision <= Run(s, ts).revision
    ensures Run(s, ts).revision == s.revision ==> Identities(Run(s, ts).items) == Identities(s.items)
    decreases |ts|
  {
    if |ts| > 0 {
      CommitRaisesRevision(s, ts[0]);
      RevisionDeterminesItems(Apply(s, ts[0]), ts[1..]);
    }
  }

  /** The edits that carry the revision of the snapshot they were made from. */
  predicate Guarded(t: Transaction) {
    t.Remove? || t.Clear? || t.Skip? || t.Reorder?
  }

  function Expected(t: Transaction): int
    requires Guarded(t)
  {
    t.expected
  }

  /**
   A snapshot reads the revision (in `s`), then, after other transactions
   `between`, the items.  Whatever happens `after`, an edit accepted with that
   revision acts on exactly the items the snapshot showed.
   */
  lemma NoLostUpdate(s: QueueState, between: seq<Transaction>, after: seq<Transaction>, t: Transaction)
    requires Guarded(t) && Expected(t) == s.revision
    requires Transact(Run(Run(s, between), after), t).Success?
    ensures Identities(Run(Run(s, between), after).items) == Identities(Run(s, between).items)
  {
    RunConcat(s, between, after);
    RevisionDeterminesItems(s, between);
    RevisionDeterminesItems(Run(s, between), after);
  }

  /** Of two edits made from the same revision at most one is accepted. */
  lemma StaleEditIsRefused(s: QueueState, first: Transaction, between: seq<Transaction>, second: Transaction)
    requires Guarded(first) && Guarded(second) && Expected(first) == Expected(second)
    requires Transact(s, first).Success?
    ensures Transact(Run(Apply(s, first), between), second) ==
            Failure(if second.Reorder? && !Distinct(second.ids) then NotFound else Conflict)
  {
    RevisionDeterminesItems(Apply(s, first), between);
  }

  /** What an accepted edit did to the ids the client was shown. */
  lemma EditActsOnShownItems(shown: seq<Item>, s: QueueState, t: Transaction)
    requires Inv(s) && Guarded(t) && Identities(s.items) == Identities(shown)
    requires Transact(s, t).Success?
    ensures Apply(s, t).revision == s.revision + 1 && Apply(s, t).playback == s.playback
    ensures forall x :: x in Apply(s, t).items ==> x in s.items
    ensures t.Clear? ==> Apply(s, t).items == []
    ensures t.Skip? ==> |shown| > 0 && Ids(Apply(s, t).items) == Ids(shown)[1..]
    ensures t.Reorder? ==> Ids(Apply(s, t).items) == t.ids && multiset(t.ids) == multiset(Ids(shown))
    ensures t.Remove? ==> exists k :: 0 <= k < |shown| && shown[k].id == t.id
                            && Ids(Apply(s, t).items) == Ids(shown)[..k] + Ids(shown)[k + 1..]
  {
    SameIds(s.items, shown);
    if t.Remove? {
      WithoutKeeps(s.items, t.id);
      RemovedIds(s.items, shown, t.id);
    } else if t.Reorder? {
      ArrangedKeeps(s.items, t.ids);
      SameIdsPermute(t.ids, s.items);
    } else if t.Skip? {
      assert Ids(s.items[1..]) == Ids(s.items)[1..];
    }
  }

  lemma RemovedIds(items: seq<Item>, shown: seq<Item>, id: Id)
    requires DistinctItems(items) && HasId(items, id) && Ids(items) == Ids(shown) && |items| == |shown|
    ensures exists k :: 0 <= k < |shown| && shown[k].id == id
                        && Ids(Without(items, id)) == Ids(shown)[..k] + Ids(shown)[k + 1..]
  {
    var k :| 0 <= k < |items| && items[k].id == id;
    WithoutSplit(items, k);
    assert Ids(items)[k] == Ids(shown)[k] == shown[k].id;
    assert Ids(Without(items, id)) == Ids(shown)[..k] + Ids(shown)[k + 1..];
  }

  lemma SameIds(a: seq<Item>, b: seq<Item>)
    requires Identities(a) == Identities(b)
    ensures Ids(a) == Ids(b) && |a| == |b|
  {
    assert |a| == |Identities(a)| == |b|;
    forall i | 0 <= i < |a| ensures a[i].id == b[i].id {
      assert Identities(a)[i] == Identities(b)[i];
    }
  }

  lemma SameIdsPermute(ids: seq<Id>, items: seq<Item>)
    requires Distinct(ids) && DistinctItems(items) && |ids| == |items|
    requires forall id :: id in ids ==> HasId(items, id)
    ensures multiset(ids) == multiset(Ids(items))
  {
    var other := Ids(items);
    forall id | id in ids ensures id in other {
      var i :| 0 <= i < |items| && items[i].id == id;
      assert other[i] == id;
    }
    var rows := set id | id in other;
    DistinctCount(other);
    DistinctCovers(rows, ids);
    assert forall id :: id in other ==> id in ids;
    DistinctMultiset(ids);
    DistinctMultiset(other);
    assert forall id :: multiset(ids)[id] == multiset(other)[id];
  }

  lemma {:induction false} DistinctMultiset(ids: seq<Id>)
    requires Distinct(ids)
    ensures forall id :: multiset(ids)[id] == if id in ids then 1 else 0
    decreases |ids|
  {
    if |ids| > 0 {
      var front, last := ids[..|ids| - 1], ids[|ids| - 1];
      assert ids == front + [last];
      DistinctMultiset(front);
    }
  }

  // ----- failed items and skipping -----

  predicate OnlyFailed(items: seq<Item>, id: Id) {
    forall i :: 0 <= i < |items| && items[i].id == id ==> items[i].status == Failed
  }

  lemma FailedStaysFailed(s: QueueState, t: Transaction, id: Id)
    requires id in s.issued && OnlyFailed(s.items, id)
    ensures OnlyFailed(Apply(s, t).items, id) && id in Apply(s, t).issued
  {
    var items := Apply(s, t).items;
    if Transact(s, t).Success? {
      match t
      case Remove(removed, _) =>
        WithoutKeeps(s.items, removed);
        forall i | 0 <= i < |items| && items[i].id == id ensures items[i].status == Failed {
          assert items[i] in s.items;
        }
      case Finish(done, None) =>
        WithoutKeeps(s.items, done);
        forall i | 0 <= i < |items| && items[i].id == id ensures items[i].status == Failed {
          assert items[i] in s.items;
        }
      case Reorder(ids, _) =>
        forall i | 0 <= i < |items| && items[i].id == id ensures items[i].status == Failed {
          assert items[i] in s.items;
        }
      case Retry(retried, _) => HasStatusFails(s.items, id, Current);
      case SetCurrent(chosen) => HasStatusFails(DemoteAll(s.items), id, Queued);
      case _ =>
    }
  }

  lemma HasStatusFails(items: seq<Item>, id: Id, status: ItemStatus)
    requires OnlyFailed(items, id) && status != Failed
    ensures !HasStatus(items, id, status)
  {
  }

  /** No interleaving of transactions ever queues or plays a failed item again. */
  lemma {:induction false} FailureIsFinal(s: QueueState, ts: seq<Transaction>, id: Id)
    requires id in s.issued && OnlyFailed(s.items, id)
    ensures OnlyFailed(Run(s, ts).items, id)
    decreases |ts|
  {
    if |ts| > 0 {
      FailedStaysFailed(s, ts[0], id);
      FailureIsFinal(Apply(s, ts[0]), ts[1..], id);
    }
  }

  /** Skipping removes the item being played exactly when that item is at the head. */
  lemma SkipRemovesPlaying(s: QueueState, playing: Id)
    requires Inv(s) && s.playback.current == Some(playing) && HasId(s.items, playing)
    ensures !HasId(Apply(s, Skip(s.revision)).items, playing) <==> s.items[0].status == Current
  {
    var after := Apply(s, Skip(s.revision)).items;
    var i :| 0 <= i < |s.items| && s.items[i].id == playing;
    if i > 0 {
      assert after[i - 1].id == playing;
    }
  }

  function Direct(id: Id): Transaction { Add(id, "direct", id, "", "", 9) }

  function Row(id: Id, status: ItemStatus, error: string): Item { Item(id, "direct", id, "", "", status, error) }

  const PLAY_FIRST: seq<Transaction> := [Direct("a"), Direct("b"), SetCurrent("a")]

  const FAIL_FIRST: seq<Transaction> := [Finish("a", Some("x")), SetCurrent("b"), Skip(3)]

  /** A failed item ahead of the one being played is skipped in its place. */
  lemma SkipCanMissPlaying()
    ensures var s := Run(EMPTY_QUEUE, PLAY_FIRST + FAIL_FIRST);
      s.revision == 4 && s.playback.current == Some("b") && s.items == [Row("b", Current, "")]
  {
    hide Apply, Run;
    RunConcat(EMPTY_QUEUE, PLAY_FIRST, FAIL_FIRST);
    FirstPlays();
    FirstFails(Run(EMPTY_QUEUE, PLAY_FIRST));
  }

  lemma FirstPlays()
    ensures var s := Run(EMPTY_QUEUE, PLAY_FIRST);
      s.revision == 2 && s.items == [Row("a", Current, ""), Row("b", Queued, "")]
  {
    var s := Apply(Apply(EMPTY_QUEUE, Direct("a")), Direct("b"));
    assert s.items == [Row("a", Queued, ""), Row("b", Queued, "")];
    assert DemoteAll(s.items)[0].id == "a";
    assert Apply(s, SetCurrent("a")).items == [Row("a", Current, ""), Row("b", Queued, "")];
    RunOfThree(EMPTY_QUEUE, PLAY_FIRST);
  }

  lemma FirstFails(s: QueueState)
    requires s.revision == 2 && s.items == [Row("a", Current, ""), Row("b", Queued, "")]
    ensures var t := Run(s, FAIL_FIRST);
      t.revision == 4 && t.playback.current == Some("b") && t.items == [Row("b", Current, "")]
  {
    assert s.items[0].id == "a";
    var failed := Apply(s, Finish("a", Some("x")));
    assert failed.items == [Row("a", Failed, "x"), Row("b", Queued, "")];
    assert DemoteAll(failed.items)[1].id == "b";
    var playing := Apply(failed, SetCurrent("b"));
    assert playing.items == [Row("a", Failed, "x"), Row("b", Current, "")];
    assert Apply(playing, Skip(3)).items == [Row("b", Current, "")];
    RunOfThree(s, FAIL_FIRST);
  }

  lemma RunOfThree(s: QueueState, ts: seq<Transaction>)
    requires |ts| == 3
    ensures Run(s, ts) == Apply(Apply(Apply(s, ts[0]), ts[1]), ts[2])
  {
    hide Apply;
    assert ts[1..][1..] == [ts[2]];
    assert Run(Apply(Apply(s, ts[0]), ts[1]), [ts[2]]) == Apply(Apply(Apply(s, ts[0]), ts[1]), ts[2]);
  }
}
