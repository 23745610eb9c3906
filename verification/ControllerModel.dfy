/**
 What each step of the playback controller does to the queue and to its own
 fields, on values.  Calls to the source resolver, the player and the database
 become outcome parameters, clock readings become parameters, and the edits that
 clients make between the database accesses of one reconciliation are part of
 that step.  What a step tells the history and the metadata observer are its notes.
 Controller proves that the methods compute these functions.
 */
module ControllerModel {
  import opened Wrappers
  import opened Positions
  import opened QueueModel
  import History
  import Player

  /** The controller's fields beside the queue it drives; times are milliseconds. */
  datatype System = System(queue: QueueState, loaded: Option<Id>, stopped: bool, retries: map<Id, nat>,
                           retryAfter: Option<int>, desiredVolume: int, commandedPause: Option<bool>,
                           lastTitle: string)

  datatype LoadOutcome = Loaded | PlayerUnavailable(message: string) | LoadFailed(message: string)

  /**
   One reconciliation: client edits `torn` fall between the two queries of the
   snapshot, `before` between the snapshot and the choice of the current item,
   `during` while the source is resolved and loaded.  The database gives the
   snapshot (`read`), stores the choice or the reset (`chosen`) and what became
   of the load (`saved`), or fails to.
   */
  datatype Attempt = Attempt(now: int, read: bool, torn: seq<Transaction>, before: seq<Transaction>, chosen: bool,
                             resolved: Result<(), string>, during: seq<Transaction>, load: LoadOutcome, saved: bool)

  /** With `accepted` the player does what it is told, with `saved` the database stores the change. */
  datatype Step =
    | Edit(edit: Transaction)
    | Reconcile(attempt: Attempt)
    | StateEvent(state: Player.State, saved: bool)
    | Ended(title: string, saved: bool)
    | Failed(now: int, title: string, message: string, saved: bool)
    | Pause(accepted: bool, saved: bool)
    | Resume(read: bool, accepted: bool, saved: bool)
    | Stop(accepted: bool, saved: bool)
    | SetVolume(volume: int, accepted: bool, saved: bool)
    | Restart

  /** What the controller tells the metadata observer and the history. */
  datatype Note =
    | TitleObserved(title: string)
    | PlayStarted(item: Item)
    | TitleChanged(id: Id, title: string)
    | PlayFinished(id: Id, title: string, outcome: History.Outcome)

  const RETRY_DELAY: int := 500

  /** A change to the queue that the database stores or not. */
  function Save(q: QueueState, t: Transaction, saved: bool): QueueState {
    if saved then Apply(q, t) else q
  }

  predicate Playable(x: Item) { x.status != ItemStatus.Failed }

  function FirstPlayable(items: seq<Item>): Option<Item> {
    if |items| == 0 then None
    else if Playable(items[0]) then Some(items[0])
    else FirstPlayable(items[1..])
  }

  /** What the player did with an item already marked current. */
  function AfterLoad(s: System, id: Id, a: Attempt): System {
    if a.resolved.Failure? then
      s.(queue := Save(s.queue, Finish(id, Some("resolve source: " + a.resolved.error)), a.saved))
    else match a.load
      case PlayerUnavailable(message) => s.(queue := Save(s.queue, Reset(Unavailable, message), a.saved))
      case LoadFailed(message) => s.(queue := Save(s.queue, Finish(id, Some(message)), a.saved))
      case Loaded => s.(loaded := Some(id), lastTitle := "")
  }

  predicate WaitingToRetry(s: System, now: int) {
    s.retryAfter.Some? && now < s.retryAfter.value
  }

  function Shown(s: System, a: Attempt): QueueState { Run(s.queue, a.torn) }

  function Ready(s: System, a: Attempt): QueueState { Run(Shown(s, a), a.before) }

  /** The chosen item could be made current. */
  predicate Chooses(q: QueueState, id: Id, a: Attempt) {
    a.chosen && Transact(q, SetCurrent(id)).Success?
  }

  /** Acting on a snapshot that showed `status` and, first playable, `next`. */
  function Settled(s: System, status: PlaybackStatus, next: Option<Item>, a: Attempt): System {
    match next
    case None =>
      var idle := status == Idle || status == Stopped;
      s.(queue := Run(if idle then s.queue else Save(s.queue, Reset(Idle, ""), a.chosen), a.during), loaded := None)
    case Some(item) =>
      if s.loaded == Some(item.id) || !Chooses(s.queue, item.id, a) then s.(queue := Run(s.queue, a.during))
      else AfterLoad(s.(queue := Run(Apply(s.queue, SetCurrent(item.id)), a.during)), item.id, a)
  }

  function Reconciled(s: System, a: Attempt): System {
    if WaitingToRetry(s, a.now) || !a.read then s.(queue := Run(Ready(s, a), a.during))
    else
      var s1 := s.(desiredVolume := s.queue.playback.volume, queue := Ready(s, a));
      if s.stopped then s1.(queue := Run(s1.queue, a.during))
      else Settled(s1, s.queue.playback.status, FirstPlayable(Shown(s, a).items), a)
  }

  /** A pending pause command overrides what the player still reports. */
  function Overridden(state: Player.State, commanded: Option<bool>, volume: int): Playback {
    var p := Playback(state.status, None, state.title, state.position, state.duration, state.paused,
                      state.buffering, volume, state.error);
    match commanded
    case None => p
    case Some(paused) =>
      p.(paused := paused,
         status := if p.buffering then Buffering
                   else if paused then Paused
                   else if p.status == Paused then Playing
                   else p.status)
  }

  function Reported(s: System, state: Player.State, saved: bool): System {
    if s.stopped then s
    else if state.status == Unavailable then
      s.(queue := Save(s.queue, Reset(Unavailable, state.error), saved), loaded := None)
    else if s.loaded.None? then
      if state.status == Idle then s.(queue := Save(s.queue, Reset(Idle, ""), saved)) else s
    else
      s.(queue := Save(s.queue, UpdatePlayback(Overridden(state, s.commandedPause, s.desiredVolume)), saved),
         commandedPause := if s.commandedPause == Some(state.paused) then None else s.commandedPause,
         lastTitle := if state.title != "" then state.title else s.lastTitle)
  }

  function AfterEnd(s: System, saved: bool): System {
    match s.loaded
    case None => s
    case Some(id) =>
      s.(retries := s.retries - {id}, queue := Save(s.queue, Finish(id, None), saved), loaded := None, lastTitle := "")
  }

  function Attempts(retries: map<Id, nat>, id: Id): nat {
    if id in retries then retries[id] else 0
  }

  function AfterFailure(s: System, limit: nat, now: int, message: string, saved: bool): System {
    match s.loaded
    case None => s
    case Some(id) =>
      var attempts := Attempts(s.retries, id);
      if attempts < limit then
        s.(retries := s.retries[id := attempts + 1], loaded := None, retryAfter := Some(now + RETRY_DELAY),
           queue := Save(s.queue, Retry(id, message), saved))
      else
        s.(retries := s.retries - {id}, queue := Save(s.queue, Finish(id, Some(message)), saved), loaded := None,
           lastTitle := "")
  }

  function PauseCommanded(s: System, paused: bool, accepted: bool, saved: bool): System {
    if accepted then s.(commandedPause := Some(paused), queue := Save(s.queue, SetPaused(paused), saved))
    else s.(commandedPause := None)
  }

  function Resumed(s: System, read: bool, accepted: bool, saved: bool): System {
    if !read then s
    else if s.queue.playback.status == Stopped then
      s.(loaded := None, stopped := false, queue := Save(s.queue, Recover, saved))
    else PauseCommanded(s, false, accepted, saved)
  }

  /** The controller of a new process, before it starts. */
  function Fresh(queue: QueueState): System {
    System(queue, None, false, map[], None, 0, None, "")
  }

  /** A new process over the stored queue, once it has started. */
  function Started(queue: QueueState): System {
    Fresh(Apply(queue, Recover))
  }

  function Advance(s: System, limit: nat, step: Step): System {
    match step
    case Edit(edit) => s.(queue := Apply(s.queue, edit))
    case Reconcile(attempt) => Reconciled(s, attempt)
    case StateEvent(state, saved) => Reported(s, state, saved)
    case Ended(_, saved) => AfterEnd(s, saved)
    case Failed(now, _, message, saved) => AfterFailure(s, limit, now, message, saved)
    case Pause(accepted, saved) => PauseCommanded(s, true, accepted, saved)
    case Resume(read, accepted, saved) => Resumed(s, read, accepted, saved)
    case Stop(accepted, saved) =>
      if accepted then s.(loaded := None, stopped := true, queue := Save(s.queue, Reset(Stopped, ""), saved)) else s
    case SetVolume(volume, accepted, saved) =>
      if accepted
      then s.(desiredVolume := volume, queue := Save(s.queue, Transaction.SetVolume(volume), saved)) else s
    case Restart => Started(s.queue)
  }

  function AdvanceAll(s: System, limit: nat, steps: seq<Step>): System
    decreases |steps|
  {
    if |steps| == 0 then s else AdvanceAll(Advance(s, limit, steps[0]), limit, steps[1..])
  }

  // ----- what a step notes -----

  /** The reconciliation resolves and loads an item. */
  predicate Loads(s: System, a: Attempt) {
    && !WaitingToRetry(s, a.now) && a.read && !s.stopped
    && FirstPlayable(Shown(s, a).items).Some?
    && s.loaded != Some(FirstPlayable(Shown(s, a).items).value.id)
    && Chooses(Ready(s, a), FirstPlayable(Shown(s, a).items).value.id, a)
    && a.resolved.Success? && a.load.Loaded?
  }

  function Notes(s: System, limit: nat, step: Step): seq<Note> {
    match step
    case Reconcile(a) => if Loads(s, a) then [PlayStarted(FirstPlayable(Shown(s, a).items).value)] else []
    case StateEvent(state, _) =>
      if s.stopped || state.status == Unavailable || s.loaded.None? || state.title == "" then []
      else [TitleObserved(state.title)]
           + if state.title != s.lastTitle then [TitleChanged(s.loaded.value, state.title)] else []
    case Ended(title, _) =>
      if s.loaded.Some? then [PlayFinished(s.loaded.value, title, History.Completed)] else []
    case Failed(_, title, _, _) =>
      if s.loaded.Some? && Attempts(s.retries, s.loaded.value) >= limit
      then [PlayFinished(s.loaded.value, title, History.Outcome.Failed)] else []
    case _ => []
  }

  // ----- which steps occur -----

  /** The transactions of the HTTP clients. */
  predicate ClientEdit(t: Transaction) {
    t.Add? || Guarded(t)
  }

  predicate ClientEdits(ts: seq<Transaction>) {
    forall i :: 0 <= i < |ts| ==> ClientEdit(ts[i])
  }

  /** Client edits are client edits, and the player states are those of the mpv driver or its supervisor. */
  predicate Possible(step: Step) {
    match step
    case Edit(edit) => ClientEdit(edit)
    case Reconcile(a) => ClientEdits(a.torn) && ClientEdits(a.before) && ClientEdits(a.during)
    case StateEvent(state, _) => Player.Agrees(state)
    case _ => true
  }
}
