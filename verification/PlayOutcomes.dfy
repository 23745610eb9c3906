/**
 How a play ends, as the queue shows it: the item is gone, waits to be loaded
 again, or stays as failed; and how often a failing item is loaded before that.
 */
module PlayOutcomes {
  import opened Wrappers
  import opened Positions
  import opened QueueModel
  import opened QueueEffects
  import opened ControllerModel
  import opened PlaybackRuns
  import Player

  /** Row k is the loaded item's, and current. */
  predicate Plays(s: System, k: nat) {
    k < |s.queue.items| && s.loaded == Some(s.queue.items[k].id) && s.queue.items[k].status == Current
  }

  lemma SomeRowPlays(s: System)
    requires s.loaded.Some? && HasStatus(s.queue.items, s.loaded.value, Current)
    ensures exists k :: 0 <= k < |s.queue.items| && Plays(s, k)
  {
    var k :| 0 <= k < |s.queue.items| && s.queue.items[k].id == s.loaded.value && s.queue.items[k].status == Current;
    assert Plays(s, k);
  }

  // ----- the end -----

  /** An item that played to its end leaves the queue, and nothing else does. */
  lemma EndRemovesItem(s: System, limit: nat, title: string, k: nat)
    requires SystemInv(s, limit) && Plays(s, k)
    ensures var s' := Advance(s, limit, Ended(title, true));
      && s'.queue.items == s.queue.items[..k] + s.queue.items[k + 1..]
      && s'.queue.revision == s.queue.revision + 1
      && Blank(s'.queue.playback, Idle, "", s.queue.playback.volume)
      && s'.loaded == None && s'.retries == s.retries - {s.queue.items[k].id}
  {
    InvIsDistinct(s.queue);
    FinishRemoves(s.queue, k);
  }

  /** In every other case, an end that is not stored included, the queue is as it was. */
  lemma EndElsewhere(s: System, limit: nat, title: string, saved: bool)
    requires !saved || forall k :: 0 <= k < |s.queue.items| ==> !Plays(s, k)
    ensures Advance(s, limit, Ended(title, saved)).queue == s.queue
    ensures Advance(s, limit, Ended(title, saved)).loaded == None
  {
    if saved && s.loaded.Some? && HasStatus(s.queue.items, s.loaded.value, Current) {
      SomeRowPlays(s);
    }
  }

  // ----- failures -----

  /** The last failure leaves the item in its place, failed, with the message; no other row changes. */
  lemma LastFailureKeepsItem(s: System, limit: nat, now: int, title: string, message: string, k: nat)
    requires SystemInv(s, limit) && Plays(s, k) && Attempts(s.retries, s.queue.items[k].id) >= limit
    ensures var s' := Advance(s, limit, Step.Failed(now, title, message, true));
      && s'.queue.items == s.queue.items[k := s.queue.items[k].(status := ItemStatus.Failed, error := message)]
      && s'.queue.revision == s.queue.revision + 1
      && Blank(s'.queue.playback, Idle, message, s.queue.playback.volume)
      && s'.loaded == None && s'.retries == s.retries - {s.queue.items[k].id} && s'.retryAfter == s.retryAfter
  {
    InvIsDistinct(s.queue);
    FinishFails(s.queue, k, message);
  }

  /** An earlier failure queues it again in its place, with the message, for half a second later. */
  lemma FailureRequeuesItem(s: System, limit: nat, now: int, title: string, message: string, k: nat)
    requires SystemInv(s, limit) && Plays(s, k) && Attempts(s.retries, s.queue.items[k].id) < limit
    ensures var s', id := Advance(s, limit, Step.Failed(now, title, message, true)), s.queue.items[k].id;
      && s'.queue.items == s.queue.items[k := s.queue.items[k].(status := Queued, error := message)]
      && s'.queue.revision == s.queue.revision
      && Blank(s'.queue.playback, Retrying, message, s.queue.playback.volume)
      && s'.loaded == None && Attempts(s'.retries, id) == Attempts(s.retries, id) + 1
      && (forall other :: other != id ==> Attempts(s'.retries, other) == Attempts(s.retries, other))
      && s'.retryAfter == Some(now + 500)
  {
    InvIsDistinct(s.queue);
    RetryRequeues(s.queue, k, message);
  }

  lemma FailureElsewhere(s: System, limit: nat, now: int, title: string, message: string, saved: bool)
    requires !saved || forall k :: 0 <= k < |s.queue.items| ==> !Plays(s, k)
    ensures Advance(s, limit, Step.Failed(now, title, message, saved)).queue == s.queue
    ensures Advance(s, limit, Step.Failed(now, title, message, saved)).loaded == None
  {
    if saved && s.loaded.Some? && HasStatus(s.queue.items, s.loaded.value, Current) {
      SomeRowPlays(s);
    }
  }

  /** Until the time is up a reconciliation does nothing but let clients edit the queue. */
  lemma RetryWaits(s: System, limit: nat, now: int, title: string, message: string, saved: bool, a: Attempt)
    requires s.loaded.Some? && Attempts(s.retries, s.loaded.value) < limit
    ensures var s' := Advance(s, limit, Step.Failed(now, title, message, saved));
      && (a.now < now + 500 ==>
            Advance(s', limit, Reconcile(a)) == s'.(queue := Run(Run(Run(s'.queue, a.torn), a.before), a.during)))
      && (a.now >= now + 500 ==> (Due(s', a) <==> !s.stopped))
  {
  }

  // ----- what a reconciliation leaves -----

  /** With nothing playable the player goes idle, and the rows stay as they are. */
  lemma NothingPlayable(s: System, limit: nat, a: Attempt)
    requires SystemInv(s, limit) && Due(s, a) && Undisturbed(a) && FirstPlayable(s.queue.items).None?
    ensures var s', p := Reconciled(s, a), s.queue.playback;
      && s'.loaded == None && s'.queue.items == s.queue.items && s'.queue.revision == s.queue.revision
      && (if p.status == Idle || p.status == Stopped then s'.queue == s.queue
          else Blank(s'.queue.playback, Idle, "", p.volume))
  {
  }

  /** Row k is the first playable one. */
  predicate LeadsQueue(items: seq<Item>, k: nat) {
    && k < |items| && items[k].status != ItemStatus.Failed
    && forall j :: 0 <= j < k ==> items[j].status == ItemStatus.Failed
  }

  lemma {:induction false} LeadingRow(items: seq<Item>, k: nat)
    requires LeadsQueue(items, k)
    ensures FirstPlayable(items) == Some(items[k])
    decreases k
  {
    if k > 0 {
      assert items[0].status == ItemStatus.Failed;
      LeadingRow(items[1..], k - 1);
    }
  }

  /** The rows when item k has been chosen: it is current, and any other has at most lost that mark. */
  predicate Chosen(before: seq<Item>, after: seq<Item>, k: nat, x: Item) {
    && k < |before| == |after| && after[k] == x
    && forall j :: 0 <= j < |before| && j != k ==> AtMostUnmarked(before[j], after[j])
  }

  /** An undisturbed reconciliation on the leading item works on the queue with that item chosen. */
  lemma WorksOnLeader(s: System, a: Attempt, k: nat)
    requires Inv(s.queue) && Due(s, a) && Undisturbed(a) && LeadsQueue(s.queue.items, k)
    requires s.loaded != Some(s.queue.items[k].id)
    ensures var q := Apply(s.queue, SetCurrent(s.queue.items[k].id));
      && Reconciled(s, a) ==
           AfterLoad(s.(desiredVolume := s.queue.playback.volume, queue := q), s.queue.items[k].id, a)
      && Chosen(s.queue.items, q.items, k, s.queue.items[k].(status := Current, error := ""))
      && q.revision == s.queue.revision && Inv(q) && q.playback.volume == s.queue.playback.volume
      && Blank(q.playback.(current := None), PlaybackStatus.Loading, "", s.queue.playback.volume)
      && q.playback.current == Some(s.queue.items[k].id)
  {
    InvIsDistinct(s.queue);
    LeadingRow(s.queue.items, k);
    ChoicePromotes(s.queue, k);
    SetCurrentKeepsInv(s.queue, s.queue.items[k].id);
    hide MadeCurrent, DistinctItems, Inv, FirstPlayable, LeadsQueue, Blank;
  }

  /** A load that works leaves the chosen row as the one loaded, and the state row loading it. */
  lemma LoadPlays(s: System, limit: nat, a: Attempt, k: nat)
    requires SystemInv(s, limit) && Due(s, a) && Undisturbed(a) && LeadsQueue(s.queue.items, k)
    requires s.loaded != Some(s.queue.items[k].id) && a.resolved.Success? && a.load.Loaded?
    ensures var s' := Reconciled(s, a);
      && Chosen(s.queue.items, s'.queue.items, k, s.queue.items[k].(status := Current, error := ""))
      && Plays(s', k) && s'.queue.revision == s.queue.revision
      && s'.queue.playback.current == s'.loaded
      && Blank(s'.queue.playback.(current := None), PlaybackStatus.Loading, "", s.queue.playback.volume)
      && s' == s.(desiredVolume := s.queue.playback.volume, queue := s'.queue, loaded := s'.loaded, lastTitle := "")
  {
    WorksOnLeader(s, a, k);
    hide SystemInv, Reconciled, Apply, Blank, LeadsQueue;
  }

  /** One that does not resolve or load stays in its place as failed, with the reason. */
  lemma BreakLeavesReason(s: System, limit: nat, a: Attempt, k: nat)
    requires SystemInv(s, limit) && Due(s, a) && Undisturbed(a) && LeadsQueue(s.queue.items, k)
    requires s.loaded != Some(s.queue.items[k].id) && (a.resolved.Failure? || a.load.LoadFailed?)
    ensures var s', reason := Reconciled(s, a), BreakMessage(a);
      && Chosen(s.queue.items, s'.queue.items, k,
                s.queue.items[k].(status := ItemStatus.Failed, error := reason))
      && s'.queue.revision == s.queue.revision + 1
      && Blank(s'.queue.playback, Idle, reason, s.queue.playback.volume)
      && s'.loaded == s.loaded && s'.retries == s.retries
      && (a.resolved.Failure? ==> reason == "resolve source: " + a.resolved.error)
      && (a.resolved.Success? ==> reason == a.load.message)
  {
    WorksOnLeader(s, a, k);
    var q := Apply(s.queue, SetCurrent(s.queue.items[k].id));
    InvIsDistinct(q);
    FinishFails(q, k, BreakMessage(a));
    hide SystemInv, Reconciled, Apply, Blank, LeadsQueue, Inv;
  }

  /** Without a player the item stays chosen, for a later reconciliation to load. */
  lemma AwayLeavesChoice(s: System, limit: nat, a: Attempt, k: nat)
    requires SystemInv(s, limit) && Due(s, a) && Undisturbed(a) && LeadsQueue(s.queue.items, k)
    requires s.loaded != Some(s.queue.items[k].id) && a.resolved.Success? && a.load.PlayerUnavailable?
    ensures var s' := Reconciled(s, a);
      && Chosen(s.queue.items, s'.queue.items, k, s.queue.items[k].(status := Current, error := ""))
      && s'.queue.revision == s.queue.revision
      && Blank(s'.queue.playback, Unavailable, a.load.message, s.queue.playback.volume)
      && s'.loaded == s.loaded && s'.retries == s.retries
  {
    WorksOnLeader(s, a, k);
    hide SystemInv, Reconciled, LeadsQueue, Inv;
  }

  // ----- reports and commands that take the item away -----

  /** When the player goes away nothing is loaded any more, and the state row says why; the rows stay. */
  lemma UnavailableIsShown(s: System, limit: nat, state: Player.State)
    requires !s.stopped && state.status == Unavailable
    ensures var s' := Advance(s, limit, StateEvent(state, true));
      && s'.loaded == None && s'.queue.items == s.queue.items && s'.queue.revision == s.queue.revision
      && Blank(s'.queue.playback, Unavailable, state.error, s.queue.playback.volume)
  {
  }

  /** An idle player with nothing loaded shows as idle; what else it reports then is not stored. */
  lemma IdleIsShown(s: System, limit: nat, state: Player.State)
    requires !s.stopped && state.status != Unavailable && s.loaded.None?
    ensures var s' := Advance(s, limit, StateEvent(state, true));
      && s'.loaded == None && s'.queue.items == s.queue.items
      && (if state.status == Idle then Blank(s'.queue.playback, Idle, "", s.queue.playback.volume)
          else s'.queue == s.queue)
  {
  }

  /** Every title reported while an item is loaded is observed, whether or not it is new, and no other. */
  lemma TitlesAreObserved(s: System, limit: nat, state: Player.State, saved: bool, title: string)
    requires s.loaded.Some? && !s.stopped && state.status != Unavailable
    ensures TitleObserved(title) in Notes(s, limit, StateEvent(state, saved)) <==> title == state.title != ""
  {
  }

  /** A stop unloads the item and keeps its row as it is; a refused one changes nothing. */
  lemma StopUnloads(s: System, limit: nat)
    ensures var s' := Advance(s, limit, Stop(true, true));
      && s'.loaded == None && s'.stopped && s'.queue.items == s.queue.items
      && Blank(s'.queue.playback, Stopped, "", s.queue.playback.volume)
    ensures Advance(s, limit, Stop(false, true)) == s
  {
  }

  /** A resume after a stop runs again, with what was current queued again for the next reconciliation to load. */
  lemma ResumeRecovers(s: System, limit: nat, accepted: bool)
    requires s.queue.playback.status == Stopped
    ensures var s' := Advance(s, limit, Resume(true, accepted, true));
      && s'.loaded == None && !s'.stopped && |s'.queue.items| == |s.queue.items|
      && (forall k :: 0 <= k < |s.queue.items| ==>
            s'.queue.items[k].status != Current && AtMostUnmarked(s.queue.items[k], s'.queue.items[k]))
      && Blank(s'.queue.playback, Idle, "", s.queue.playback.volume)
  {
    RecoverRequeues(s.queue);
  }

  /** After a refused pause command reports are followed again, whatever was commanded before. */
  lemma RefusedPauseIsForgotten(s: System, limit: nat, states: seq<Player.State>)
    requires Listening(s) && |states| > 0
    requires forall i :: 0 <= i < |states| ==> states[i].status != Unavailable
    ensures var s' := Advance(s, limit, Pause(false, true));
      && s'.queue == s.queue
      && AdvanceAll(s', limit, Reports(states)).queue.playback.paused == states[|states| - 1].paused
  {
    ReportsFollowed(Advance(s, limit, Pause(false, true)), limit, states);
  }

  // ----- how often a failing item is loaded -----

  /** The item is loaded and fails. */
  datatype Round = Round(attempt: Attempt, at: int, title: string, message: string)

  function Rounds(rs: seq<Round>): seq<Step> {
    if |rs| == 0 then []
    else [Reconcile(rs[0].attempt), Step.Failed(rs[0].at, rs[0].title, rs[0].message, true)] + Rounds(rs[1..])
  }

  /** Every load is undisturbed and works, and comes half a second or more after the failure before it. */
  predicate Spaced(rs: seq<Round>, from: int) {
    |rs| > 0 ==>
      && Undisturbed(rs[0].attempt) && rs[0].attempt.resolved.Success? && rs[0].attempt.load.Loaded?
      && rs[0].attempt.now >= from
      && Spaced(rs[1..], rs[0].at + 500)
  }

  /** The controller would load row k at `from` or later. */
  predicate WouldLoad(s: System, k: nat, from: int) {
    && LeadsQueue(s.queue.items, k) && s.loaded.None? && !s.stopped
    && (s.retryAfter.Some? ==> s.retryAfter.value <= from)
  }

  lemma LoadAndFail(s: System, limit: nat, r: Round, k: nat, from: int)
    requires SystemInv(s, limit) && WouldLoad(s, k, from) && Spaced([r], from)
    ensures var s1 := Advance(s, limit, Reconcile(r.attempt));
      var s2 := Advance(s1, limit, Step.Failed(r.at, r.title, r.message, true));
      var id, n := s.queue.items[k].id, Attempts(s.retries, s.queue.items[k].id);
      && SystemInv(s2, limit) && |s2.queue.items| == |s.queue.items| && s2.queue.items[k].id == id
      && s2.queue.items[k].error == r.message
      && (n < limit ==> WouldLoad(s2, k, r.at + 500) && Attempts(s2.retries, id) == n + 1)
      && (n >= limit ==> s2.queue.items[k].status == ItemStatus.Failed)
  {
    var s1 := Reconciled(s, r.attempt);
    LoadPlays(s, limit, r.attempt, k);
    ReconcileKeepsInv(s, limit, r.attempt);
    FailureKeepsInv(s1, limit, r.at, r.message, true);
    hide SystemInv, Reconciled, AfterFailure, Blank;
    if Attempts(s.retries, s.queue.items[k].id) < limit {
      FailureRequeuesItem(s1, limit, r.at, r.title, r.message, k);
    } else {
      LastFailureKeepsItem(s1, limit, r.at, r.title, r.message, k);
    }
  }

  lemma TwoSteps(s: System, limit: nat, rs: seq<Round>)
    requires |rs| > 0
    ensures AdvanceAll(s, limit, Rounds(rs)) ==
      AdvanceAll(Advance(Advance(s, limit, Reconcile(rs[0].attempt)), limit,
                         Step.Failed(rs[0].at, rs[0].title, rs[0].message, true)), limit, Rounds(rs[1..]))
  {
    hide Advance;
    var steps := Rounds(rs);
    assert steps[1..][1..] == Rounds(rs[1..]);
  }

  /**
   An item that keeps failing is loaded once and then again as often as the limit
   says: it is still to be loaded after up to that many failures, and has failed,
   with the last message, after one more.
   */
  lemma {:induction false} RetriedUpToLimit(s: System, limit: nat, rs: seq<Round>, k: nat, from: int)
    requires SystemInv(s, limit) && WouldLoad(s, k, from) && Spaced(rs, from)
    requires |rs| > 0 && Attempts(s.retries, s.queue.items[k].id) + |rs| <= limit + 1
    ensures var s', n := AdvanceAll(s, limit, Rounds(rs)), Attempts(s.retries, s.queue.items[k].id) + |rs|;
      && k < |s'.queue.items| && s'.queue.items[k].id == s.queue.items[k].id
      && s'.queue.items[k].error == rs[|rs| - 1].message
      && (n <= limit ==> LeadsQueue(s'.queue.items, k) && Attempts(s'.retries, s.queue.items[k].id) == n)
      && (n == limit + 1 ==> s'.queue.items[k].status == ItemStatus.Failed)
    decreases |rs|
  {
    assert Spaced([rs[0]], from) by {
      assert [rs[0]][1..] == [];
    }
    LoadAndFail(s, limit, rs[0], k, from);
    TwoSteps(s, limit, rs);
    var s2 := Advance(Advance(s, limit, Reconcile(rs[0].attempt)), limit,
                      Step.Failed(rs[0].at, rs[0].title, rs[0].message, true));
    hide SystemInv, Advance;
    if |rs| > 1 {
      RetriedUpToLimit(s2, limit, rs[1..], k, rs[0].at + 500);
    } else {
      assert rs[1..] == [] && Rounds(rs[1..]) == [];
    }
  }
}
