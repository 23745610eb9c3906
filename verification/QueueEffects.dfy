/**
 What accepted transactions do to the rows and to the state row, when they are
 accepted at all, and what no run of transactions ever does to an item.
 */
module QueueEffects {
  import opened Wrappers
  import opened Positions
  import opened QueueModel

  // ----- additions -----

  /** An accepted addition appends one queued row with everything that was submitted. */
  lemma AddAppends(s: QueueState, t: Transaction)
    requires t.Add?
    ensures Transact(s, t) == Failure(Full) <==> |s.items| >= t.limit
    ensures Transact(s, t) == Failure(Duplicate) <==>
      |s.items| < t.limit && (t.id in s.issued || HasUrl(s.items, t.url))
    ensures Transact(s, t).Success? <==> |s.items| < t.limit && t.id !in s.issued && !HasUrl(s.items, t.url)
    ensures Transact(s, t).Success? ==>
      var s' := Apply(s, t);
      && |s'.items| == |s.items| + 1 && s'.items[..|s.items|] == s.items
      && Submitted(s'.items[|s.items|], t) && s'.items[|s.items|].title == t.title
      && s'.items[|s.items|].status == Queued && s'.items[|s.items|].error == ""
      && s'.revision == s.revision + 1 && s'.issued == s.issued + {t.id} && s'.playback == s.playback
  {
  }

  /** The row holds what was submitted; only a stream, or an item without a title, may be given another title. */
  predicate Submitted(x: Item, t: Transaction)
    requires t.Add?
  {
    && x.id == t.id && x.kind == t.kind && x.url == t.url && x.submitter == t.submitter
    && (t.title != "" && t.kind != "direct" ==> x.title == t.title)
  }

  predicate AllSubmitted(items: seq<Item>, t: Transaction)
    requires t.Add?
  {
    forall i :: 0 <= i < |items| && items[i].id == t.id ==> Submitted(items[i], t)
  }

  lemma SubmissionStays(s: QueueState, t: Transaction, other: Transaction)
    requires t.Add? && t.id in s.issued && AllSubmitted(s.items, t)
    ensures AllSubmitted(Apply(s, other).items, t) && t.id in Apply(s, other).issued
  {
    var items := Apply(s, other).items;
    if Transact(s, other).Success? && (other.Remove? || other.Reorder? || (other.Finish? && other.failure.None?)) {
      if !other.Reorder? {
        WithoutKeeps(s.items, other.id);
      }
      forall i | 0 <= i < |items| ensures items[i] in s.items {}
    }
  }

  lemma {:induction false} SubmissionStaysThrough(s: QueueState, t: Transaction, ts: seq<Transaction>)
    requires t.Add? && t.id in s.issued && AllSubmitted(s.items, t)
    ensures AllSubmitted(Run(s, ts).items, t)
    decreases |ts|
  {
    hide AllSubmitted, Apply;
    if |ts| > 0 {
      SubmissionStays(s, t, ts[0]);
      SubmissionStaysThrough(Apply(s, ts[0]), t, ts[1..]);
    }
  }

  /** Whatever happens after an item was added, its row holds what was submitted for as long as it is there. */
  lemma SubmissionIsKept(s: QueueState, t: Transaction, ts: seq<Transaction>)
    requires Inv(s) && t.Add? && Transact(s, t).Success?
    ensures AllSubmitted(Run(Apply(s, t), ts).items, t)
  {
    AddAppends(s, t);
    SubmissionStaysThrough(Apply(s, t), t, ts);
  }

  // ----- guarded edits -----

  /** Which edits of the current revision are accepted: a reorder must be a permutation of the ids in the queue. */
  predicate Applies(items: seq<Item>, t: Transaction)
    requires Guarded(t)
  {
    match t
    case Remove(id, _) => HasId(items, id)
    case Clear(_) => true
    case Skip(_) => items != []
    case Reorder(ids, _) => multiset(ids) == multiset(Ids(items))
  }

  lemma {:induction false} NoRepeats(ids: seq<Id>)
    requires forall id :: multiset(ids)[id] <= 1
    ensures Distinct(ids)
    decreases |ids|
  {
    if |ids| > 0 {
      var front, last := ids[..|ids| - 1], ids[|ids| - 1];
      assert ids == front + [last];
      assert forall id :: multiset(front)[id] <= multiset(ids)[id];
      NoRepeats(front);
      assert last !in front by {
        assert multiset(ids)[last] == multiset(front)[last] + 1;
        assert multiset(front)[last] == 0;
      }
    }
  }

  lemma PermutationsApply(items: seq<Item>, ids: seq<Id>)
    requires DistinctItems(items)
    ensures multiset(ids) == multiset(Ids(items)) <==>
      Distinct(ids) && |ids| == |items| && forall id :: id in ids ==> HasId(items, id)
  {
    var other := Ids(items);
    if multiset(ids) == multiset(other) {
      assert Distinct(other);
      DistinctMultiset(other);
      NoRepeats(ids);
      assert |multiset(ids)| == |ids| && |multiset(other)| == |other|;
      forall id | id in ids ensures HasId(items, id) {
        assert id in multiset(ids) && id in other;
        var i :| 0 <= i < |other| && other[i] == id;
        assert items[i].id == id;
      }
    } else if Distinct(ids) && |ids| == |items| && forall id :: id in ids ==> HasId(items, id) {
      SameIdsPermute(ids, items);
    }
  }

  /** A guarded edit is accepted exactly if its revision is current and it applies; otherwise the error says why. */
  lemma EditAccepted(s: QueueState, t: Transaction)
    requires DistinctItems(s.items) && Guarded(t)
    ensures Transact(s, t).Success? <==> Expected(t) == s.revision && Applies(s.items, t)
    ensures Transact(s, t) == Failure(Conflict) <==>
      Expected(t) != s.revision && !(t.Reorder? && !Distinct(t.ids))
    ensures Transact(s, t).Failure? ==> Transact(s, t).error == Conflict || Transact(s, t).error == NotFound
  {
    hide HasId, Arranged, Without;
    if t.Reorder? {
      PermutationsApply(s.items, t.ids);
    }
  }

  // ----- the item being played -----

  lemma CurrentAt(items: seq<Item>, k: nat)
    requires DistinctItems(items) && k < |items|
    ensures HasStatus(items, items[k].id, Current) <==> items[k].status == Current
  {
  }

  /** Marking by id changes one row only. */
  lemma MarkAt(items: seq<Item>, k: nat, status: ItemStatus, error: string)
    requires DistinctItems(items) && k < |items|
    ensures MarkAll(items, items[k].id, status, error) == items[k := items[k].(status := status, error := error)]
  {
  }

  /** The state row when nothing is loaded: no current item, title, position or flags, and the volume as it was. */
  predicate Blank(p: Playback, status: PlaybackStatus, error: string, volume: int) {
    && p.status == status && p.current == None && p.title == "" && p.position == 0.0 && p.duration == 0.0
    && !p.paused && !p.buffering && p.volume == volume && p.error == error
  }

  /** A played item leaves the queue, and nothing else does. */
  lemma FinishRemoves(s: QueueState, k: nat)
    requires DistinctItems(s.items) && k < |s.items| && s.items[k].status == Current
    ensures var s' := Apply(s, Finish(s.items[k].id, None));
      && s'.items == s.items[..k] + s.items[k + 1..]
      && s'.revision == s.revision + 1 && s'.issued == s.issued
      && Blank(s'.playback, Idle, "", s.playback.volume)
  {
    CurrentAt(s.items, k);
    WithoutSplit(s.items, k);
    hide DistinctItems, HasStatus, Without;
  }

  /** An item that failed stays in its place with the reason; no other row changes. */
  lemma FinishFails(s: QueueState, k: nat, message: string)
    requires DistinctItems(s.items) && k < |s.items| && s.items[k].status == Current
    ensures var s' := Apply(s, Finish(s.items[k].id, Some(message)));
      && s'.items == s.items[k := s.items[k].(status := Failed, error := message)]
      && s'.revision == s.revision + 1 && s'.issued == s.issued
      && Blank(s'.playback, Idle, message, s.playback.volume)
  {
    CurrentAt(s.items, k);
    MarkAt(s.items, k, Failed, message);
    hide DistinctItems, HasStatus, MarkAll;
  }

  /** An item to be retried is queued again with the reason, and clients' revisions stay good. */
  lemma RetryRequeues(s: QueueState, k: nat, message: string)
    requires DistinctItems(s.items) && k < |s.items| && s.items[k].status == Current
    ensures var s' := Apply(s, Retry(s.items[k].id, message));
      && s'.items == s.items[k := s.items[k].(status := Queued, error := message)]
      && s'.revision == s.revision && s'.issued == s.issued
      && Blank(s'.playback, Retrying, message, s.playback.volume)
  {
    CurrentAt(s.items, k);
    MarkAt(s.items, k, Queued, message);
    hide DistinctItems, HasStatus, MarkAll;
  }

  /** What an item may lose when another is chosen, or a crash is recovered from: the mark that it is current. */
  predicate AtMostUnmarked(before: Item, after: Item) {
    && after.status == (if before.status == Current then Queued else before.status)
    && after == before.(status := after.status, error := after.error)
    && (before.status != Current ==> after == before)
  }

  /** An item can be chosen unless it failed; the row is then current, and any other loses only that mark. */
  lemma ChoicePromotes(s: QueueState, k: nat)
    requires DistinctItems(s.items) && k < |s.items|
    ensures Transact(s, SetCurrent(s.items[k].id)).Success? <==> s.items[k].status != Failed
    ensures s.items[k].status != Failed ==>
      var s' := Apply(s, SetCurrent(s.items[k].id));
      && |s'.items| == |s.items| && s'.items[k] == s.items[k].(status := Current, error := "")
      && (forall j :: 0 <= j < |s.items| && j != k ==> AtMostUnmarked(s.items[j], s'.items[j]))
      && s'.revision == s.revision && s'.issued == s.issued
      && s'.playback.current == Some(s.items[k].id)
      && Blank(s'.playback.(current := None), Loading, "", s.playback.volume)
  {
    var demoted := DemoteAll(s.items);
    assert demoted[k].id == s.items[k].id;
    assert s.items[k].status != Failed ==> demoted[k].status == Queued;
    if j :| 0 <= j < |demoted| && demoted[j].id == s.items[k].id && demoted[j].status == Queued {
      assert s.items[j].id == s.items[k].id;
      assert j == k;
    }
  }

  /** After a recovery no row is current; each keeps everything else, its error included. */
  lemma RecoverRequeues(s: QueueState)
    ensures var s' := Apply(s, Recover);
      && |s'.items| == |s.items|
      && (forall k :: 0 <= k < |s.items| ==>
            s'.items[k].status != Current && s'.items[k].error == s.items[k].error
            && AtMostUnmarked(s.items[k], s'.items[k]))
      && s'.revision == s.revision && s'.issued == s.issued
      && Blank(s'.playback, Idle, "", s.playback.volume)
  {
  }

  // ----- commands on the state row -----

  /** A pause and an unpause give the state row back exactly if it was playing, or buffering, without being paused. */
  lemma PauseAndResume(s: QueueState)
    requires Normal(s.playback)
    ensures Apply(Apply(s, SetPaused(true)), SetPaused(false)) == s <==>
      !s.playback.paused && (s.playback.buffering || s.playback.status == Playing)
  {
  }

  /** A pause shows as paused at once, unless the player is buffering; nothing but status and flag changes. */
  lemma PauseShows(s: QueueState, paused: bool)
    requires Normal(s.playback)
    ensures var s' := Apply(s, SetPaused(paused));
      && s' == s.(playback := s.playback.(paused := paused, status := s'.playback.status)) && Normal(s'.playback)
      && (s'.playback.status != s.playback.status ==>
            s'.playback.status == if paused then Paused else Playing)
      && (s.playback.paused == paused ==> s' == s)
  {
  }

  /** The volume is stored if it is valid, and nothing else changes. */
  lemma VolumeIsStored(s: QueueState, volume: int)
    ensures Transact(s, SetVolume(volume)).Success? <==> 0 <= volume <= 100
    ensures var s' := Apply(s, SetVolume(volume));
      && s'.playback.volume == (if 0 <= volume <= 100 then volume else s.playback.volume)
      && s'.(playback := s'.playback.(volume := s.playback.volume)) == s
  {
  }

  /** A report is stored whole but for the current item; it names that item's row if it is a stream or has no title. */
  lemma ReportIsStored(s: QueueState, seen: Playback, k: nat)
    requires DistinctItems(s.items) && ValidVolume(seen.volume)
    requires k < |s.items| && s.playback.current == Some(s.items[k].id)
    ensures var s', x := Apply(s, UpdatePlayback(seen)), s.items[k];
      && s'.playback.current == s.playback.current && s'.playback.(current := seen.current) == seen
      && s'.revision == s.revision && s'.issued == s.issued
      && s'.items == (if seen.title != "" && (x.kind == "direct" || x.title == "")
                      then s.items[k := x.(title := seen.title)] else s.items)
  {
  }
}
