/**
 What holds in every state the controller and its clients can reach, and what a
 successful reconciliation establishes.
 */
module PlaybackRuns {
  import opened Wrappers
  import opened Positions
  import opened QueueModel
  import Player
  import opened ControllerModel

  predicate NotFailed(items: seq<Item>, id: Id) {
    forall i :: 0 <= i < |items| && items[i].id == id ==> Playable(items[i])
  }

  /** The loaded item, if its row is still there, has not failed. */
  ghost predicate SystemInv(s: System, limit: nat) {
    && Inv(s.queue)
    && (s.loaded.Some? ==> s.loaded.value in s.queue.issued && NotFailed(s.queue.items, s.loaded.value))
    && (forall id :: id in s.retries ==> id in s.queue.issued && s.retries[id] <= limit)
  }

  lemma {:induction false} RunKeepsIssued(q: QueueState, ts: seq<Transaction>)
    ensures q.issued <= Run(q, ts).issued
    decreases |ts|
  {
    if |ts| > 0 {
      RunKeepsIssued(Apply(q, ts[0]), ts[1..]);
    }
  }

  lemma EditsKeepInv(q: QueueState, ts: seq<Transaction>)
    requires Inv(q) && ClientEdits(ts)
    ensures Inv(Run(q, ts)) && q.issued <= Run(q, ts).issued
  {
    RunKeepsInv(q, ts);
    RunKeepsIssued(q, ts);
  }

  /** Only its own failure makes an item fail. */
  lemma NotFailedStays(q: QueueState, t: Transaction, id: Id)
    requires id in q.issued && NotFailed(q.items, id) && !(t.Finish? && t.id == id && t.failure.Some?)
    ensures NotFailed(Apply(q, t).items, id) && id in Apply(q, t).issued
  {
    var items := Apply(q, t).items;
    if Transact(q, t).Success? && (t.Remove? || t.Reorder? || (t.Finish? && t.failure.None?)) {
      if !t.Reorder? {
        WithoutKeeps(q.items, t.id);
      }
      forall i | 0 <= i < |items| ensures items[i] in q.items {}
    }
  }

  lemma {:induction false} NotFailedThrough(q: QueueState, ts: seq<Transaction>, id: Id)
    requires ClientEdits(ts) && id in q.issued && NotFailed(q.items, id)
    ensures NotFailed(Run(q, ts).items, id)
    decreases |ts|
  {
    hide NotFailed, Apply;
    if |ts| > 0 {
      NotFailedStays(q, ts[0], id);
      NotFailedThrough(Apply(q, ts[0]), ts[1..], id);
    }
  }

  lemma LoadedThrough(q: QueueState, ts: seq<Transaction>, loaded: Option<Id>)
    requires ClientEdits(ts) && (loaded.Some? ==> loaded.value in q.issued && NotFailed(q.items, loaded.value))
    ensures loaded.Some? ==> NotFailed(Run(q, ts).items, loaded.value)
  {
    if loaded.Some? {
      NotFailedThrough(q, ts, loaded.value);
    }
  }

  lemma ChosenNotFailed(q: QueueState, id: Id)
    requires DistinctItems(q.items) && Transact(q, SetCurrent(id)).Success?
    ensures NotFailed(Apply(q, SetCurrent(id)).items, id)
  {
  }

  lemma InvIsDistinct(q: QueueState)
    requires Inv(q)
    ensures DistinctItems(q.items)
  {
  }

  lemma ReconcileKeepsInv(s: System, limit: nat, a: Attempt)
    requires SystemInv(s, limit) && Possible(Reconcile(a))
    ensures SystemInv(Reconciled(s, a), limit)
  {
    hide Inv, Run, ClientEdits, WellDriven, Transact, AfterLoad, NotFailed;
    EditsKeepInv(s.queue, a.torn);
    EditsKeepInv(Shown(s, a), a.before);
    LoadedThrough(s.queue, a.torn, s.loaded);
    LoadedThrough(Shown(s, a), a.before, s.loaded);
    var ready := Ready(s, a);
    EditsKeepInv(ready, a.during);
    LoadedThrough(ready, a.during, s.loaded);
    ResetKeepsInv(ready, Idle, "");
    EditsKeepInv(Apply(ready, Reset(Idle, "")), a.during);
    if !WaitingToRetry(s, a.now) && !s.stopped {
      var s1 := s.(desiredVolume := s.queue.playback.volume, queue := ready);
      SettleKeepsInv(s1, limit, s.queue.playback.status, FirstPlayable(Shown(s, a).items), a);
    }
  }

  lemma SettleKeepsInv(s: System, limit: nat, status: PlaybackStatus, next: Option<Item>, a: Attempt)
    requires SystemInv(s, limit) && ClientEdits(a.during)
    ensures SystemInv(Settled(s, status, next, a), limit)
  {
    hide Inv, Run, ClientEdits, WellDriven, Transact, NotFailed;
    EditsKeepInv(s.queue, a.during);
    LoadedThrough(s.queue, a.during, s.loaded);
    ResetKeepsInv(s.queue, Idle, "");
    EditsKeepInv(Apply(s.queue, Reset(Idle, "")), a.during);
    if next.Some? {
      var id := next.value.id;
      var chosen := Apply(s.queue, SetCurrent(id));
      SetCurrentKeepsInv(s.queue, id);
      if s.loaded != Some(id) && Transact(s.queue, SetCurrent(id)).Success? {
        SetCurrentIssued(s.queue, id);
        EditsKeepInv(chosen, a.during);
        InvIsDistinct(s.queue);
        ChosenNotFailed(s.queue, id);
        NotFailedThrough(chosen, a.during, id);
        if s.loaded.Some? {
          NotFailedStays(s.queue, SetCurrent(id), s.loaded.value);
          LoadedThrough(chosen, a.during, s.loaded);
        }
        hide DistinctItems;
        LoadKeepsInv(s.(queue := Run(chosen, a.during)), limit, id, a);
      }
    }
  }

  lemma ResetKeepsInv(q: QueueState, status: PlaybackStatus, message: string)
    requires Inv(q) && status != Buffering && status != Paused
    ensures Inv(Apply(q, Reset(status, message))) && Apply(q, Reset(status, message)).issued == q.issued
  {
  }

  lemma SetCurrentIssued(q: QueueState, id: Id)
    requires Inv(q) && Transact(q, SetCurrent(id)).Success?
    ensures id in q.issued && Apply(q, SetCurrent(id)).issued == q.issued
  {
    var i :| 0 <= i < |q.items| && Demote(q.items[i]).id == id;
  }

  lemma FinishIssued(q: QueueState, id: Id, failure: Option<string>)
    requires Inv(q)
    ensures Inv(Apply(q, Finish(id, failure))) && Apply(q, Finish(id, failure)).issued == q.issued
  {
    OutcomeKeepsInv(q, Finish(id, failure));
  }

  lemma LoadKeepsInv(s: System, limit: nat, id: Id, a: Attempt)
    requires SystemInv(s, limit) && id in s.queue.issued && NotFailed(s.queue.items, id) && s.loaded != Some(id)
    ensures SystemInv(AfterLoad(s, id, a), limit)
  {
    hide Inv, Apply, NotFailed;
    if a.resolved.Failure? {
      GiveUpKeepsInv(s, limit, id, "resolve source: " + a.resolved.error);
    } else {
      match a.load
      case PlayerUnavailable(message) =>
        ResetKeepsInv(s.queue, Unavailable, message);
        if s.loaded.Some? {
          NotFailedStays(s.queue, Reset(Unavailable, message), s.loaded.value);
        }
      case LoadFailed(message) => GiveUpKeepsInv(s, limit, id, message);
      case Loaded =>
    }
  }

  lemma GiveUpKeepsInv(s: System, limit: nat, id: Id, message: string)
    requires SystemInv(s, limit) && s.loaded != Some(id)
    ensures SystemInv(s.(queue := Apply(s.queue, Finish(id, Some(message)))), limit)
  {
    hide Inv, Apply, NotFailed;
    FinishIssued(s.queue, id, Some(message));
    if s.loaded.Some? {
      NotFailedStays(s.queue, Finish(id, Some(message)), s.loaded.value);
    }
  }

  /** A driver state that agrees with its flags is persisted as one that does, commanded pause or not. */
  lemma OverrideIsNormal(state: Player.State, commanded: Option<bool>, volume: int)
    requires Player.Agrees(state)
    ensures Normal(Overridden(state, commanded, volume))
  {
  }

  lemma ReportKeepsInv(s: System, limit: nat, state: Player.State, saved: bool)
    requires SystemInv(s, limit) && Player.Agrees(state)
    ensures SystemInv(Reported(s, state, saved), limit)
  {
    hide Inv, Normal, Player.Agrees, NotFailed;
    var update := UpdatePlayback(Overridden(state, s.commandedPause, s.desiredVolume));
    OverrideIsNormal(state, s.commandedPause, s.desiredVolume);
    TransactionKeepsInv(s.queue, update);
    if s.loaded.Some? {
      NotFailedStays(s.queue, update, s.loaded.value);
    }
    ResetKeepsInv(s.queue, Unavailable, state.error);
    ResetKeepsInv(s.queue, Idle, "");
  }

  lemma EndKeepsInv(s: System, limit: nat, saved: bool)
    requires SystemInv(s, limit)
    ensures SystemInv(AfterEnd(s, saved), limit)
  {
    hide Inv, Apply;
    if s.loaded.Some? {
      FinishIssued(s.queue, s.loaded.value, None);
    }
  }

  lemma FailureKeepsInv(s: System, limit: nat, now: int, message: string, saved: bool)
    requires SystemInv(s, limit)
    ensures SystemInv(AfterFailure(s, limit, now, message, saved), limit)
  {
    hide Inv;
    if s.loaded.Some? {
      FinishIssued(s.queue, s.loaded.value, Some(message));
      OutcomeKeepsInv(s.queue, Retry(s.loaded.value, message));
    }
  }

  /** A transaction that is not a failure of the loaded item keeps the invariant of the system. */
  lemma SaveKeepsInv(s: System, limit: nat, t: Transaction, saved: bool)
    requires SystemInv(s, limit) && WellDriven(t) && !t.Finish?
    ensures SystemInv(s.(queue := Save(s.queue, t, saved)), limit)
  {
    hide Inv, NotFailed, WellDriven;
    TransactionKeepsInv(s.queue, t);
    if s.loaded.Some? {
      NotFailedStays(s.queue, t, s.loaded.value);
    }
    IssuedGrows(s.queue, t);
  }

  lemma IssuedGrows(q: QueueState, t: Transaction)
    ensures q.issued <= Apply(q, t).issued
  {
  }

  lemma CommandKeepsInv(s: System, limit: nat, step: Step)
    requires SystemInv(s, limit) && Possible(step)
    requires !step.StateEvent? && !step.Ended? && !step.Failed? && !step.Reconcile?
    ensures SystemInv(Advance(s, limit, step), limit)
  {
    hide Inv, NotFailed, Apply;
    match step
    case Edit(edit) => SaveKeepsInv(s, limit, edit, true);
    case Pause(_, saved) => SaveKeepsInv(s, limit, SetPaused(true), saved);
    case Resume(_, _, saved) =>
      SaveKeepsInv(s, limit, SetPaused(false), saved);
      SaveKeepsInv(s, limit, Recover, saved);
    case Stop(_, saved) => SaveKeepsInv(s, limit, Reset(Stopped, ""), saved);
    case SetVolume(volume, _, saved) => SaveKeepsInv(s, limit, Transaction.SetVolume(volume), saved);
    case Restart => SaveKeepsInv(s, limit, Recover, true);
  }

  /** Every step of the controller or of a client keeps the invariant of the system. */
  lemma StepKeepsInv(s: System, limit: nat, step: Step)
    requires SystemInv(s, limit) && Possible(step)
    ensures SystemInv(Advance(s, limit, step), limit)
  {
    match step
    case Reconcile(a) => ReconcileKeepsInv(s, limit, a);
    case StateEvent(state, saved) => ReportKeepsInv(s, limit, state, saved);
    case Ended(_, saved) => EndKeepsInv(s, limit, saved);
    case Failed(now, _, message, saved) => FailureKeepsInv(s, limit, now, message, saved);
    case _ => CommandKeepsInv(s, limit, step);
  }

  lemma {:induction false} StepsKeepInv(s: System, limit: nat, steps: seq<Step>)
    requires SystemInv(s, limit)
    requires forall i :: 0 <= i < |steps| ==> Possible(steps[i])
    ensures SystemInv(AdvanceAll(s, limit, steps), limit)
    decreases |steps|
  {
    if |steps| > 0 {
      StepKeepsInv(s, limit, steps[0]);
      StepsKeepInv(Advance(s, limit, steps[0]), limit, steps[1..]);
    }
  }

  /**
   In every state reached from an empty queue: at most one row is current, the
   row of the item named current is the current one, the persisted status agrees
   with the persisted flags, and a loaded item still queued has not failed.
   */
  lemma ReachableSystems(limit: nat, steps: seq<Step>)
    requires forall i :: 0 <= i < |steps| ==> Possible(steps[i])
    ensures var s := AdvanceAll(Started(EMPTY_QUEUE), limit, steps);
      && OneCurrent(s.queue.items) && CurrentAgrees(s.queue)
      && Normal(s.queue.playback) && ValidVolume(s.queue.playback.volume)
      && (s.loaded.Some? ==> NotFailed(s.queue.items, s.loaded.value))
  {
    StepsKeepInv(Started(EMPTY_QUEUE), limit, steps);
  }

  // ----- loading -----

  /** Item `id` has the given status at index k, and every item before it has failed. */
  predicate LeadsAt(items: seq<Item>, k: int, id: Id, status: ItemStatus) {
    && 0 <= k < |items| && items[k].id == id && items[k].status == status
    && (forall j :: 0 <= j < k ==> items[j].status == ItemStatus.Failed)
  }

  predicate Leads(items: seq<Item>, id: Id, status: ItemStatus) {
    exists k :: 0 <= k < |items| && LeadsAt(items, k, id, status)
  }

  /** The first playable item is the one that every earlier item has failed before. */
  lemma {:induction false} FirstPlayableLeads(items: seq<Item>)
    ensures FirstPlayable(items).None? ==> forall i :: 0 <= i < |items| ==> !Playable(items[i])
    ensures FirstPlayable(items).Some? ==>
      var x := FirstPlayable(items).value;
      x in items && Playable(x) && Leads(items, x.id, x.status)
    decreases |items|
  {
    if |items| > 0 {
      if Playable(items[0]) {
        assert LeadsAt(items, 0, items[0].id, items[0].status);
      } else {
        FirstPlayableLeads(items[1..]);
        if FirstPlayable(items).Some? {
          var x := FirstPlayable(items).value;
          var k :| 0 <= k < |items[1..]| && LeadsAt(items[1..], k, x.id, x.status);
          assert LeadsAt(items, k + 1, x.id, x.status);
        }
      }
    }
  }

  lemma {:induction false} LeaderIsFirstPlayable(items: seq<Item>, id: Id, status: ItemStatus)
    requires Leads(items, id, status) && status != ItemStatus.Failed
    ensures FirstPlayable(items).Some? && FirstPlayable(items).value.id == id
    ensures FirstPlayable(items).value.status == status
    decreases |items|
  {
    var k :| 0 <= k < |items| && LeadsAt(items, k, id, status);
    if k > 0 {
      assert LeadsAt(items[1..], k - 1, id, status);
      LeaderIsFirstPlayable(items[1..], id, status);
    }
  }

  /** The rows after a choice: in their order, as playable as before, and the chosen one current. */
  lemma ChosenRows(items: seq<Item>, id: Id, k: nat)
    requires DistinctItems(items) && k < |items| && items[k].id == id && Playable(items[k])
    ensures var after := MarkAll(DemoteAll(items), id, Current, "");
      && |after| == |items| && Ids(after) == Ids(items) && after[k].id == id && after[k].status == Current
      && forall i :: 0 <= i < |after| ==>
           (Playable(after[i]) <==> Playable(items[i]))
  {
    var after := MarkAll(DemoteAll(items), id, Current, "");
    assert forall i :: 0 <= i < |after| ==> after[i] == Mark(Demote(items[i]), id, Current, "");
    assert forall i :: 0 <= i < |after| && i != k ==> items[i].id != id;
    assert Ids(after) == Ids(items);
  }

  /** Choosing the first playable item succeeds, even if a crash left its row current. */
  lemma ChooseLeader(q: QueueState, id: Id, status: ItemStatus)
    requires DistinctItems(q.items) && Leads(q.items, id, status) && status != ItemStatus.Failed
    ensures Transact(q, SetCurrent(id)).Success?
    ensures Leads(Apply(q, SetCurrent(id)).items, id, Current)
    ensures Ids(Apply(q, SetCurrent(id)).items) == Ids(q.items)
    ensures forall i :: 0 <= i < |q.items| ==> (Playable(Apply(q, SetCurrent(id)).items[i]) <==> Playable(q.items[i]))
  {
    var k :| 0 <= k < |q.items| && LeadsAt(q.items, k, id, status);
    ChosenRows(q.items, id, k);
    var demoted := DemoteAll(q.items);
    assert demoted[k].id == id && demoted[k].status == Queued;
    assert HasStatus(demoted, id, Queued);
    hide HasStatus, DistinctItems, MarkAll, DemoteAll;
    var items := Apply(q, SetCurrent(id)).items;
    assert LeadsAt(items, k, id, Current);
  }

  /** A reconciliation without client edits in between, and with a working database. */
  predicate Undisturbed(a: Attempt) {
    a.torn == [] && a.before == [] && a.during == [] && a.read && a.chosen && a.saved
  }

  predicate Due(s: System, a: Attempt) {
    !s.stopped && !WaitingToRetry(s, a.now)
  }

  /**
   An undisturbed reconciliation that resolves and loads leaves the controller,
   the state row and the item statuses in agreement: all three name the first
   playable item.
   */
  lemma LoadingAgrees(s: System, limit: nat, a: Attempt)
    requires SystemInv(s, limit) && Due(s, a) && Undisturbed(a)
    requires FirstPlayable(s.queue.items).Some? && s.loaded != Some(FirstPlayable(s.queue.items).value.id)
    requires a.resolved.Success? && a.load.Loaded?
    ensures var id, s' := FirstPlayable(s.queue.items).value.id, Reconciled(s, a);
      && s'.loaded == Some(id) && s'.queue.playback.current == Some(id)
      && Leads(s'.queue.items, id, Current)
      && (forall x :: x in s'.queue.items ==> (x.status == Current <==> x.id == id))
      && Ids(s'.queue.items) == Ids(s.queue.items)
      && (forall i :: 0 <= i < |s'.queue.items| ==> (Playable(s'.queue.items[i]) <==> Playable(s.queue.items[i])))
  {
    hide WellDriven;
    var x := FirstPlayable(s.queue.items).value;
    FirstPlayableLeads(s.queue.items);
    ChooseLeader(s.queue, x.id, x.status);
    SetCurrentKeepsInv(s.queue, x.id);
  }

  function ChosenId(s: System, a: Attempt): Id
    requires FirstPlayable(Shown(s, a).items).Some?
  {
    FirstPlayable(Shown(s, a).items).value.id
  }

  /** The reconciliation marks an item current and then cannot resolve or load it. */
  predicate Breaks(s: System, a: Attempt) {
    && Due(s, a) && a.read
    && FirstPlayable(Shown(s, a).items).Some?
    && s.loaded != Some(FirstPlayable(Shown(s, a).items).value.id)
    && Chooses(Ready(s, a), FirstPlayable(Shown(s, a).items).value.id, a)
    && (a.resolved.Failure? || a.load.LoadFailed?)
  }

  function BreakMessage(a: Attempt): string {
    if a.resolved.Failure? then "resolve source: " + a.resolved.error
    else if a.load.LoadFailed? then a.load.message else ""
  }

  /** The queue when a broken item is given up: chosen, then edited by clients. */
  function GivenUp(s: System, a: Attempt): QueueState
    requires FirstPlayable(Shown(s, a).items).Some?
  {
    Run(Apply(Ready(s, a), SetCurrent(ChosenId(s, a))), a.during)
  }

  lemma BreakResult(s: System, a: Attempt)
    requires Breaks(s, a)
    ensures Reconciled(s, a).retries == s.retries
    ensures Reconciled(s, a).queue == Save(GivenUp(s, a), Finish(ChosenId(s, a), Some(BreakMessage(a))), a.saved)
  {
    hide Run, MadeCurrent, Finished;
  }

  /** When the item cannot be resolved or loaded it is marked failed, and no other item changes. */
  lemma BrokenItemIsPassedOver(s: System, limit: nat, a: Attempt)
    requires SystemInv(s, limit) && Due(s, a) && Undisturbed(a)
    requires FirstPlayable(s.queue.items).Some? && s.loaded != Some(FirstPlayable(s.queue.items).value.id)
    requires a.resolved.Failure? || a.load.LoadFailed?
    ensures var id, items := FirstPlayable(s.queue.items).value.id, Reconciled(s, a).queue.items;
      && Ids(items) == Ids(s.queue.items)
      && (forall i :: 0 <= i < |items| ==>
            (Playable(items[i]) <==> Playable(s.queue.items[i]) && s.queue.items[i].id != id))
      && Reconciled(s, a).loaded == s.loaded
  {
    var x := FirstPlayable(s.queue.items).value;
    FirstPlayableLeads(s.queue.items);
    InvIsDistinct(s.queue);
    ChooseLeader(s.queue, x.id, x.status);
    var chosen := Apply(s.queue, SetCurrent(x.id));
    LeaderHasStatus(chosen.items, x.id, Current);
    MarkFailed(chosen, x.id, BreakMessage(a));
    hide SystemInv, Transact, Apply, Leads, HasStatus, FirstPlayable, DistinctItems;
    assert Breaks(s, a) && GivenUp(s, a) == chosen;
    BreakResult(s, a);
    SameLengthIds(s.queue.items, chosen.items);
  }

  lemma SameLengthIds(a: seq<Item>, b: seq<Item>)
    requires Ids(a) == Ids(b)
    ensures |a| == |b| && forall i :: 0 <= i < |a| ==> a[i].id == b[i].id
  {
    assert |Ids(a)| == |Ids(b)|;
    forall i | 0 <= i < |a| ensures a[i].id == b[i].id {
      assert Ids(a)[i] == Ids(b)[i];
    }
  }

  lemma MarkFailed(q: QueueState, id: Id, message: string)
    requires HasStatus(q.items, id, Current)
    ensures var items := Apply(q, Finish(id, Some(message))).items;
      && Ids(items) == Ids(q.items)
      && forall i :: 0 <= i < |items| ==> (Playable(items[i]) <==> Playable(q.items[i]) && q.items[i].id != id)
  {
  }

  lemma LeaderHasStatus(items: seq<Item>, id: Id, status: ItemStatus)
    requires Leads(items, id, status)
    ensures HasStatus(items, id, status) && HasId(items, id)
  {
    var k :| 0 <= k < |items| && LeadsAt(items, k, id, status);
  }

  // ----- commands -----

  function Reports(states: seq<Player.State>): seq<Step> {
    seq(|states|, i requires 0 <= i < |states| => StateEvent(states[i], true))
  }

  /** A loaded, running controller with a valid volume persists every player report. */
  predicate Listening(s: System) {
    s.loaded.Some? && !s.stopped && ValidVolume(s.desiredVolume)
  }

  lemma ReportPersists(s: System, state: Player.State)
    requires Listening(s) && state.status != Unavailable
    ensures var s' := Reported(s, state, true);
      && Listening(s')
      && s'.queue.playback.paused == (if s.commandedPause.Some? then s.commandedPause.value else state.paused)
      && s'.commandedPause == if s.commandedPause == Some(state.paused) then None else s.commandedPause
  {
  }

  lemma {:induction false} ReportsFollowed(s: System, limit: nat, states: seq<Player.State>)
    requires Listening(s) && s.commandedPause.None? && |states| > 0
    requires forall i :: 0 <= i < |states| ==> states[i].status != Unavailable
    ensures AdvanceAll(s, limit, Reports(states)).queue.playback.paused == states[|states| - 1].paused
    decreases |states|
  {
    ReportPersists(s, states[0]);
    assert Reports(states)[1..] == Reports(states[1..]);
    if |states| > 1 {
      ReportsFollowed(Reported(s, states[0], true), limit, states[1..]);
    }
  }

  /**
   After an accepted pause or resume command the persisted flag stays as commanded
   through any number of stale player reports; from the first report that agrees
   on, it is whatever the player last reported.
   */
  lemma {:induction false} CommandedPauseSticks(s: System, limit: nat, states: seq<Player.State>, paused: bool)
    requires Listening(s) && s.commandedPause == Some(paused) && s.queue.playback.paused == paused
    requires forall i :: 0 <= i < |states| ==> states[i].status != Unavailable
    ensures AdvanceAll(s, limit, Reports(states)).queue.playback.paused ==
      if forall i :: 0 <= i < |states| ==> states[i].paused != paused then paused
      else states[|states| - 1].paused
    decreases |states|
  {
    if |states| > 0 {
      ReportPersists(s, states[0]);
      assert Reports(states)[1..] == Reports(states[1..]);
      var s' := Reported(s, states[0], true);
      assert forall i :: 0 <= i < |states[1..]| ==> states[1..][i] == states[i + 1];
      if states[0].paused != paused {
        CommandedPauseSticks(s', limit, states[1..], paused);
      } else if |states| > 1 {
        ReportsFollowed(s', limit, states[1..]);
      }
    }
  }

  /** So a pause or resume command that is taken and stored sticks, whatever was reported before. */
  lemma CommandSticks(s: System, limit: nat, states: seq<Player.State>, paused: bool)
    requires Listening(s) && s.queue.playback.status != PlaybackStatus.Stopped
    requires forall i :: 0 <= i < |states| ==> states[i].status != Unavailable
    ensures var s' := Advance(s, limit, if paused then Pause(true, true) else Resume(true, true, true));
      && s'.queue.playback.paused == paused
      && AdvanceAll(s', limit, Reports(states)).queue.playback.paused ==
           if forall i :: 0 <= i < |states| ==> states[i].paused != paused then paused
           else states[|states| - 1].paused
  {
    CommandedPauseSticks(Advance(s, limit, if paused then Pause(true, true) else Resume(true, true, true)), limit,
                         states, paused);
  }

  /** A report is shown as it is, but for the commanded pause, and for the volume, which is the one set. */
  lemma ReportIsShown(s: System, state: Player.State)
    requires Listening(s) && Player.Agrees(state) && state.status != Unavailable
    ensures var p := Reported(s, state, true).queue.playback;
      && p.title == state.title && p.position == state.position && p.duration == state.duration
      && p.error == state.error && p.buffering == state.buffering
      && p.current == s.queue.playback.current && p.volume == s.desiredVolume
      && p.paused == (if s.commandedPause.Some? then s.commandedPause.value else state.paused)
      && (s.commandedPause.None? ==> p.status == state.status)
  {
  }

  /** A commanded pause is shown as the player would show it, once it is past loading. */
  lemma OverrideIsLikePlayer(state: Player.State, paused: bool, volume: int)
    requires Player.Agrees(state) && state.status in {Idle, Playing, Paused, Buffering}
    ensures Overridden(state, Some(paused), volume).status == Player.Normalised(state.(paused := paused)).status
  {
  }

  /** Anything but the commands that stop and resume, and a restart. */
  predicate Between(step: Step) {
    Possible(step) && !step.Stop? && !step.Resume? && !step.Restart?
  }

  /** A pause that the player accepts and the database stores. */
  const STORED_PAUSE := Pause(true, true)

  lemma {:induction false} EditsKeepPlayback(q: QueueState, ts: seq<Transaction>)
    requires ClientEdits(ts)
    ensures Run(q, ts).playback == q.playback
    decreases |ts|
  {
    if |ts| > 0 {
      assert ClientEdit(ts[0]);
      EditsKeepPlayback(Apply(q, ts[0]), ts[1..]);
    }
  }

  /** A stopped controller with nothing loaded does nothing to the state row but what commands ask. */
  lemma StepWhileStopped(s: System, limit: nat, step: Step)
    requires s.stopped && s.loaded.None? && !s.queue.playback.buffering && Between(step)
    ensures var s' := Advance(s, limit, step);
      && s'.stopped && s'.loaded.None? && !s'.queue.playback.buffering
      && s'.queue.playback.status == if step == STORED_PAUSE then Paused else s.queue.playback.status
  {
    match step
    case Edit(edit) => EditsKeepPlayback(s.queue, [edit]);
    case Reconcile(a) =>
      EditsKeepPlayback(s.queue, a.torn);
      EditsKeepPlayback(Shown(s, a), a.before);
      EditsKeepPlayback(Ready(s, a), a.during);
    case _ =>
  }

  lemma {:induction false} StepsWhileStopped(s: System, limit: nat, steps: seq<Step>)
    requires s.stopped && s.loaded.None? && !s.queue.playback.buffering
    requires forall i :: 0 <= i < |steps| ==> Between(steps[i])
    ensures var s' := AdvanceAll(s, limit, steps);
      s'.stopped && s'.queue.playback.status == if STORED_PAUSE in steps then Paused else s.queue.playback.status
    decreases |steps|
  {
    if |steps| > 0 {
      assert steps == [steps[0]] + steps[1..];
      StepWhileStopped(s, limit, steps[0]);
      StepsWhileStopped(Advance(s, limit, steps[0]), limit, steps[1..]);
    }
  }

  /**
   Whatever clients, player and other commands do in between, a resume after a
   stop starts playback again exactly if no pause was stored: it overwrites the
   status that resume looks for.
   */
  lemma ResumeAfterStop(s: System, limit: nat, steps: seq<Step>, accepted: bool, saved: bool)
    requires forall i :: 0 <= i < |steps| ==> Between(steps[i])
    ensures var stopped := AdvanceAll(Advance(s, limit, Stop(true, true)), limit, steps);
      !Advance(stopped, limit, Resume(true, accepted, saved)).stopped <==> STORED_PAUSE !in steps
  {
    StepsWhileStopped(Advance(s, limit, Stop(true, true)), limit, steps);
  }
}
