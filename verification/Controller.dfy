/**
 The playback controller object.  Its methods are the source's, with the
 outcomes of resolver, player and database calls, clock readings and the edits of
 other clients passed in; each computes the step function of ControllerModel and
 returns what it notes.
 */
module Controller {
  import opened Wrappers
  import opened Positions
  import opened QueueModel
  import History
  import Player
  import opened QueueStore
  import opened ControllerModel

  /** Choices and resets issue no ids, and a refused choice leaves the queue as it is. */
  lemma ChoiceIssuesNothing(q: QueueState, id: Id)
    ensures Apply(q, Reset(Idle, "")).issued == q.issued && Apply(q, SetCurrent(id)).issued == q.issued
    ensures Transact(q, SetCurrent(id)).Failure? ==> Apply(q, SetCurrent(id)) == q
  {
  }

  class Controller {
    const store: Store
    const retryLimit: nat
    var loaded: Option<Id>
    var stopped: bool
    var retries: map<Id, nat>
    var retryAfter: Option<int>
    var desiredVolume: int
    var commandedPause: Option<bool>
    var lastTitle: string

    ghost predicate Valid()
      reads this, store
    {
      store.Valid()
    }

    ghost function View(): System
      reads this, store
    {
      System(store.View(), loaded, stopped, retries, retryAfter, desiredVolume, commandedPause, lastTitle)
    }

    constructor (store: Store, retryLimit: int)
      requires store.Valid()
      ensures this.store == store && this.retryLimit == if retryLimit > 0 then retryLimit else 0
      ensures Valid() && View() == Fresh(store.View())
    {
      this.store, this.retryLimit := store, if retryLimit > 0 then retryLimit else 0;
      loaded, stopped, retries, retryAfter := None, false, map[], None;
      desiredVolume, commandedPause, lastTitle := 0, None, "";
    }

    /** Items left current by the previous process are queued again; then the player starts, or does not. */
    method Start(saved: bool, playerStarts: bool) returns (started: bool)
      requires Valid()
      modifies this, store
      ensures Valid() && started == (saved && playerStarts)
      ensures View() == old(View()).(queue := Save(old(store.View()), Recover, saved))
    {
      hide Tables;
      var recovered := store.Recover(!saved);
      return recovered.Success? && playerStarts;
    }

    static method Choose(items: seq<Item>) returns (next: Option<Item>)
      ensures next == FirstPlayable(items)
    {
      for i := 0 to |items|
        invariant FirstPlayable(items) == FirstPlayable(items[i..])
      {
        if items[i].status == Queued || items[i].status == Current {
          return Some(items[i]);
        }
      }
      return None;
    }

    method Reconcile(a: Attempt) returns (notes: seq<Note>)
      requires Valid() && NewIds(store.issued, a.torn + a.before + a.during)
      modifies this, store
      ensures Valid() && View() == Reconciled(old(View()), a)
      ensures notes == Notes(old(View()), retryLimit, Step.Reconcile(a))
    {
      ghost var q := store.View();
      NewAfterRun(q, a.torn + a.before, a.during);
      NewAfterRun(q, a.torn, a.before);
      RunConcat(q, a.torn, a.before);
      hide Transact, Tables, Run, NewIds, Apply;
      if (retryAfter.Some? && a.now < retryAfter.value) || !a.read {
        store.PerformAll(a.torn);
        store.PerformAll(a.before);
        store.PerformAll(a.during);
        return [];
      }
      var revision, playback := store.ReadState();
      store.PerformAll(a.torn);
      var items := store.ReadItems();
      desiredVolume := playback.volume;
      store.PerformAll(a.before);
      if stopped {
        store.PerformAll(a.during);
        return [];
      }
      var next := Choose(items);
      notes := Settle(playback.status, next, a);
    }

    /** Acts on a snapshot that showed `status` and, first playable, `next`. */
    method Settle(status: PlaybackStatus, next: Option<Item>, a: Attempt) returns (notes: seq<Note>)
      requires Valid() && NewIds(store.issued, a.during)
      modifies this, store
      ensures Valid() && View() == Settled(old(View()), status, next, a)
      ensures notes ==
        if next.Some? && old(loaded) != Some(next.value.id) && Chooses(old(store.View()), next.value.id, a)
           && a.resolved.Success? && a.load.Loaded?
        then [PlayStarted(next.value)] else []
    {
      hide Tables, Run, NewIds, Transact, Apply, AfterLoad;
      ChoiceIssuesNothing(store.View(), if next.Some? then next.value.id else "");
      match next {
        case None =>
          loaded := None;
          if status != Idle && status != Stopped {
            var reset := store.Reset(Idle, "", !a.chosen);
          }
          store.PerformAll(a.during);
          return [];
        case Some(item) =>
          if loaded == Some(item.id) {
            store.PerformAll(a.during);
            return [];
          }
          var chosen := store.SetCurrent(item.id, !a.chosen);
          store.PerformAll(a.during);
          if chosen.Failure? {
            return [];
          }
          notes := Work(item, a);
      }
    }

    /** Resolve and load, with the given outcomes. */
    method Work(item: Item, a: Attempt) returns (notes: seq<Note>)
      requires Valid()
      modifies this, store
      ensures Valid() && View() == AfterLoad(old(View()), item.id, a)
      ensures notes == if a.resolved.Success? && a.load.Loaded? then [PlayStarted(item)] else []
    {
      hide Transact, Tables;
      if a.resolved.Failure? {
        var failed := store.Finish(item.id, Some("resolve source: " + a.resolved.error), !a.saved);
        return [];
      }
      match a.load {
        case PlayerUnavailable(message) =>
          var reset := store.Reset(Unavailable, message, !a.saved);
          return [];
        case LoadFailed(message) =>
          var failed := store.Finish(item.id, Some(message), !a.saved);
          return [];
        case Loaded =>
          loaded := Some(item.id);
          lastTitle := "";
          return [PlayStarted(item)];
      }
    }

    method HandleState(state: Player.State, saved: bool) returns (notes: seq<Note>)
      requires Valid()
      modifies this, store
      ensures Valid() && View() == Reported(old(View()), state, saved)
      ensures notes == Notes(old(View()), retryLimit, StateEvent(state, saved))
    {
      hide Transact, Tables;
      if stopped {
        return [];
      }
      if state.status == Unavailable {
        var reset := store.Reset(Unavailable, state.error, !saved);
        loaded := None;
        return [];
      }
      if loaded.None? && state.status == Idle {
        var reset := store.Reset(Idle, "", !saved);
        return [];
      }
      if loaded.None? {
        return [];
      }
      var commanded := commandedPause;
      if commanded.Some? && state.paused == commanded.value {
        commandedPause := None;
      }
      var p := Playback(state.status, None, state.title, state.position, state.duration, state.paused,
                        state.buffering, desiredVolume, state.error);
      if commanded.Some? {
        p := p.(paused := commanded.value);
        if p.buffering {
          p := p.(status := Buffering);
        } else if p.paused {
          p := p.(status := Paused);
        } else if p.status == Paused {
          p := p.(status := Playing);
        }
      }
      var updated := store.UpdatePlayback(p, !saved);
      notes := [];
      if state.title != "" {
        notes := [TitleObserved(state.title)];
        if state.title != lastTitle {
          lastTitle := state.title;
          notes := notes + [TitleChanged(loaded.value, state.title)];
        }
      }
    }

    method HandleEnded(title: string, saved: bool) returns (notes: seq<Note>)
      requires Valid()
      modifies this, store
      ensures Valid() && View() == AfterEnd(old(View()), saved)
      ensures notes == Notes(old(View()), retryLimit, Ended(title, saved))
    {
      hide Transact, Tables;
      notes := [];
      if loaded.Some? {
        retries := retries - {loaded.value};
        notes := [PlayFinished(loaded.value, title, History.Completed)];
        var finished := store.Finish(loaded.value, None, !saved);
        loaded := None;
        lastTitle := "";
      }
    }

    method HandleFailed(now: int, title: string, message: string, saved: bool) returns (notes: seq<Note>)
      requires Valid()
      modifies this, store
      ensures Valid() && View() == AfterFailure(old(View()), retryLimit, now, message, saved)
      ensures notes == Notes(old(View()), retryLimit, Step.Failed(now, title, message, saved))
    {
      hide Transact, Tables;
      notes := [];
      if loaded.Some? {
        var id := loaded.value;
        var attempts := if id in retries then retries[id] else 0;
        if attempts < retryLimit {
          retries := retries[id := attempts + 1];
          loaded := None;
          retryAfter := Some(now + RETRY_DELAY);
          var retried := store.Retry(id, message, !saved);
          return;
        }
        retries := retries - {id};
        notes := [PlayFinished(id, title, History.Outcome.Failed)];
        var failed := store.Finish(id, Some(message), !saved);
        loaded := None;
        lastTitle := "";
      }
    }

    /** The pause command: the override is in place before the player is told. */
    method SetPaused(paused: bool, accepted: bool, saved: bool) returns (ok: bool)
      requires Valid()
      modifies this, store
      ensures Valid() && View() == PauseCommanded(old(View()), paused, accepted, saved)
      ensures ok <==> accepted && saved
    {
      hide Transact, Tables;
      commandedPause := Some(paused);
      if !accepted {
        commandedPause := None;
        return false;
      }
      var stored := store.SetPaused(paused, !saved);
      return saved;
    }

    method Resume(read: bool, accepted: bool, saved: bool) returns (ok: bool)
      requires Valid()
      modifies this, store
      ensures Valid() && View() == Resumed(old(View()), read, accepted, saved)
      ensures ok <==> read && saved && (old(store.playback).status != Stopped ==> accepted)
    {
      hide Transact, Tables;
      if !read {
        return false;
      }
      var revision, playback := store.ReadState();
      if playback.status == Stopped {
        loaded := None;
        stopped := false;
        var recovered := store.Recover(!saved);
        return saved;
      }
      ok := SetPaused(false, accepted, saved);
    }

    method Stop(accepted: bool, saved: bool) returns (ok: bool)
      requires Valid()
      modifies this, store
      ensures Valid() && View() == Advance(old(View()), retryLimit, Step.Stop(accepted, saved))
      ensures ok <==> accepted && saved
    {
      hide Transact, Tables;
      if !accepted {
        return false;
      }
      loaded := None;
      stopped := true;
      var reset := store.Reset(Stopped, "", !saved);
      return saved;
    }

    method SetVolume(volume: int, accepted: bool, saved: bool) returns (ok: bool)
      requires Valid()
      modifies this, store
      ensures Valid() && View() == Advance(old(View()), retryLimit, Step.SetVolume(volume, accepted, saved))
      ensures ok <==> accepted && saved && ValidVolume(volume)
    {
      hide Tables;
      var previous := desiredVolume;
      desiredVolume := volume;
      if !accepted {
        desiredVolume := previous;
        return false;
      }
      var stored := store.SetVolume(volume, !saved);
      return stored.Success?;
    }
  }
}
