/**
 The volume.  The controller writes the volume back with every player report, so
 it must never write another than the one last set.
 */
module Volume {
  import opened Wrappers
  import opened Positions
  import opened QueueModel
  import opened ControllerModel
  import opened PlaybackRuns
  import Player

  /** While an item is loaded, the volume that reports write back is the stored one. */
  predicate InTune(s: System) {
    s.loaded.Some? ==> s.desiredVolume == s.queue.playback.volume
  }

  /** The player takes the volume and the database stores it. */
  predicate SetsVolume(step: Step) {
    step.SetVolume? && step.accepted && step.saved && ValidVolume(step.volume)
  }

  /** A volume that the player takes is stored as well. */
  predicate Sound(step: Step) {
    Possible(step) && (step.SetVolume? && step.accepted ==> SetsVolume(step))
  }

  /** The volume set last, or the one there was. */
  function LastVolume(steps: seq<Step>, volume: int): int {
    if |steps| == 0 then volume
    else
      var last := steps[|steps| - 1];
      if SetsVolume(last) then last.volume else LastVolume(steps[..|steps| - 1], volume)
  }

  // ----- single steps -----

  lemma LoadKeepsVolume(s: System, id: Id, a: Attempt)
    requires s.desiredVolume == s.queue.playback.volume
    ensures var s' := AfterLoad(s, id, a); InTune(s') && s'.queue.playback.volume == s.queue.playback.volume
  {
  }

  lemma ReconcileKeepsVolume(s: System, a: Attempt)
    requires InTune(s) && Possible(Reconcile(a))
    ensures var s' := Reconciled(s, a); InTune(s') && s'.queue.playback.volume == s.queue.playback.volume
  {
    var ready := Ready(s, a);
    EditsKeepPlayback(s.queue, a.torn);
    EditsKeepPlayback(Shown(s, a), a.before);
    EditsKeepPlayback(ready, a.during);
    EditsKeepPlayback(Apply(ready, Reset(Idle, "")), a.during);
    if FirstPlayable(Shown(s, a).items).Some? {
      var id := FirstPlayable(Shown(s, a).items).value.id;
      var chosen := Apply(ready, SetCurrent(id));
      EditsKeepPlayback(chosen, a.during);
      VolumeAfter(ready, SetCurrent(id));
      hide Run, MadeCurrent, AfterLoad, Apply;
      LoadKeepsVolume(s.(desiredVolume := s.queue.playback.volume, queue := Run(chosen, a.during)), id, a);
    }
  }

  /** Two transactions write the volume, if it is valid. */
  lemma VolumeAfter(q: QueueState, t: Transaction)
    ensures Apply(q, t).playback.volume ==
      match t
      case UpdatePlayback(seen) => if ValidVolume(seen.volume) then seen.volume else q.playback.volume
      case SetVolume(volume) => if ValidVolume(volume) then volume else q.playback.volume
      case _ => q.playback.volume
  {
  }

  lemma ReportKeepsVolume(s: System, state: Player.State, saved: bool)
    requires InTune(s)
    ensures var s' := Reported(s, state, saved); InTune(s') && s'.queue.playback.volume == s.queue.playback.volume
  {
    hide Apply;
    VolumeAfter(s.queue, Reset(Unavailable, state.error));
    VolumeAfter(s.queue, Reset(Idle, ""));
    VolumeAfter(s.queue, UpdatePlayback(Overridden(state, s.commandedPause, s.desiredVolume)));
  }

  lemma EndKeepsVolume(s: System, limit: nat, now: int, message: string, saved: bool)
    ensures AfterEnd(s, saved).loaded.None? && AfterEnd(s, saved).queue.playback.volume == s.queue.playback.volume
    ensures var s' := AfterFailure(s, limit, now, message, saved);
      s'.loaded.None? && s'.queue.playback.volume == s.queue.playback.volume
  {
    hide Apply;
    if s.loaded.Some? {
      VolumeAfter(s.queue, Finish(s.loaded.value, None));
      VolumeAfter(s.queue, Finish(s.loaded.value, Some(message)));
      VolumeAfter(s.queue, Retry(s.loaded.value, message));
    }
  }

  lemma StepKeepsVolume(s: System, limit: nat, step: Step)
    requires InTune(s) && Sound(step)
    ensures var s' := Advance(s, limit, step);
      && InTune(s')
      && s'.queue.playback.volume == if SetsVolume(step) then step.volume else s.queue.playback.volume
  {
    hide Apply, Reconciled, Reported, AfterEnd, AfterFailure;
    match step
    case Reconcile(a) => ReconcileKeepsVolume(s, a);
    case StateEvent(state, saved) => ReportKeepsVolume(s, state, saved);
    case Ended(_, saved) => EndKeepsVolume(s, limit, 0, "", saved);
    case Failed(now, _, message, saved) => EndKeepsVolume(s, limit, now, message, saved);
    case Edit(edit) => VolumeAfter(s.queue, edit);
    case Pause(_, _) => VolumeAfter(s.queue, SetPaused(true));
    case Resume(_, _, _) =>
      VolumeAfter(s.queue, SetPaused(false));
      VolumeAfter(s.queue, Recover);
    case Stop(_, _) => VolumeAfter(s.queue, Reset(Stopped, ""));
    case SetVolume(volume, _, _) => VolumeAfter(s.queue, Transaction.SetVolume(volume));
    case Restart => VolumeAfter(s.queue, Recover);
  }

  // ----- runs -----

  lemma {:induction false} VolumeIsTheLastSet(s: System, limit: nat, steps: seq<Step>)
    requires InTune(s) && forall i :: 0 <= i < |steps| ==> Sound(steps[i])
    ensures var s' := AdvanceAll(s, limit, steps);
      InTune(s') && s'.queue.playback.volume == LastVolume(steps, s.queue.playback.volume)
    decreases |steps|
  {
    if |steps| > 0 {
      var front, last := steps[..|steps| - 1], steps[|steps| - 1];
      VolumeIsTheLastSet(s, limit, front);
      assert steps == front + [last];
      AdvanceConcat(s, limit, front, last);
      hide InTune, Advance, AdvanceAll, SetsVolume, Sound;
      StepKeepsVolume(AdvanceAll(s, limit, front), limit, last);
    }
  }

  lemma {:induction false} AdvanceConcat(s: System, limit: nat, front: seq<Step>, last: Step)
    ensures AdvanceAll(s, limit, front + [last]) == Advance(AdvanceAll(s, limit, front), limit, last)
    decreases |front|
  {
    hide Advance;
    if |front| > 0 {
      assert (front + [last])[1..] == front[1..] + [last];
      AdvanceConcat(Advance(s, limit, front[0]), limit, front[1..], last);
    } else {
      assert front + [last] == [last] && [last][1..] == [];
    }
  }

  /** In a run from a process start in which nobody sets the volume it stays as it was stored, restarts included. */
  lemma VolumeSurvives(q: QueueState, limit: nat, steps: seq<Step>)
    requires forall i :: 0 <= i < |steps| ==> Possible(steps[i]) && !steps[i].SetVolume?
    ensures AdvanceAll(Started(q), limit, steps).queue.playback.volume == q.playback.volume
  {
    VolumeIsTheLastSet(Started(q), limit, steps);
    NobodySets(steps, q.playback.volume);
  }

  lemma {:induction false} NobodySets(steps: seq<Step>, volume: int)
    requires forall i :: 0 <= i < |steps| ==> !SetsVolume(steps[i])
    ensures LastVolume(steps, volume) == volume
    decreases |steps|
  {
    if |steps| > 0 {
      NobodySets(steps[..|steps| - 1], volume);
    }
  }

  /** A volume that is taken and stored stays through anything but another one, whatever was stored before. */
  lemma SetVolumeStays(s: System, limit: nat, volume: int, steps: seq<Step>)
    requires ValidVolume(volume)
    requires forall i :: 0 <= i < |steps| ==> Possible(steps[i]) && !(steps[i].SetVolume? && steps[i].accepted)
    ensures var s' := Advance(s, limit, Step.SetVolume(volume, true, true));
      AdvanceAll(s', limit, steps).queue.playback.volume == volume
  {
    VolumeIsTheLastSet(Advance(s, limit, Step.SetVolume(volume, true, true)), limit, steps);
    NobodySets(steps, volume);
  }

  /**
   A volume that the player takes and the database does not store is stored by
   the next report of the player, unless a reconciliation reads the state before.
   */
  lemma UnstoredVolumeReturns(s: System, limit: nat, volume: int, a: Attempt, state: Player.State)
    requires Listening(s) && ValidVolume(volume) && state.status != Unavailable
    requires Possible(Reconcile(a)) && a.read && !WaitingToRetry(s, a.now)
    ensures var s1 := Advance(s, limit, Step.SetVolume(volume, true, false));
      && s1.queue == s.queue
      && Advance(s1, limit, StateEvent(state, true)).queue.playback.volume == volume
      && InTune(Advance(s1, limit, Reconcile(a)))
      && Advance(s1, limit, Reconcile(a)).queue.playback.volume == s.queue.playback.volume
  {
    var s1 := Advance(s, limit, Step.SetVolume(volume, true, false));
    assert Reconciled(s1, a) == Reconciled(s1.(desiredVolume := s.queue.playback.volume), a) by {
      hide Run, Settled;
    }
    ReconcileKeepsVolume(s1.(desiredVolume := s.queue.playback.volume), a);
  }
}
