/**
 Broken items do not stall playback: reconciliations that nothing disturbs reach
 the first playable item that can be resolved and loaded, whatever the resolver
 and the player make of the items before it.
 */
module Progress {
  import opened Wrappers
  import opened Positions
  import opened QueueModel
  import opened ControllerModel
  import opened PlaybackRuns

  function PlayableIds(items: seq<Item>): seq<Id> {
    if |items| == 0 then []
    else (if Playable(items[0]) then [items[0].id] else []) + PlayableIds(items[1..])
  }

  /** A due, undisturbed reconciliation with the player there. */
  predicate Tries(s: System, a: Attempt) {
    Due(s, a) && Undisturbed(a) && (a.resolved.Success? ==> !a.load.PlayerUnavailable?)
  }

  predicate Works(a: Attempt) {
    a.resolved.Success? && a.load.Loaded?
  }

  /** How many attempts come before the first that resolves and loads its item. */
  function Broken(attempts: seq<Attempt>): (n: nat)
    ensures n <= |attempts|
  {
    if |attempts| == 0 || Works(attempts[0]) then 0 else 1 + Broken(attempts[1..])
  }

  function Ticks(attempts: seq<Attempt>): seq<Step> {
    seq(|attempts|, i requires 0 <= i < |attempts| => Reconcile(attempts[i]))
  }

  // ----- playable items -----

  lemma {:induction false} FirstOfPlayable(items: seq<Item>)
    ensures FirstPlayable(items).None? <==> PlayableIds(items) == []
    ensures FirstPlayable(items).Some? ==> PlayableIds(items)[0] == FirstPlayable(items).value.id
    decreases |items|
  {
    if |items| > 0 {
      FirstOfPlayable(items[1..]);
    }
  }

  lemma {:induction false} SamePlayable(a: seq<Item>, b: seq<Item>)
    requires |a| == |b|
    requires forall i :: 0 <= i < |a| ==> a[i].id == b[i].id && (Playable(a[i]) <==> Playable(b[i]))
    ensures PlayableIds(a) == PlayableIds(b)
    decreases |a|
  {
    if |a| > 0 {
      SamePlayable(a[1..], b[1..]);
    }
  }

  /** When the first playable item, and no other, stops being playable, the rest are left. */
  lemma {:induction false} FirstPassedOver(before: seq<Item>, after: seq<Item>)
    requires DistinctItems(before) && |after| == |before| && FirstPlayable(before).Some?
    requires forall i :: 0 <= i < |after| ==> after[i].id == before[i].id
    requires forall i :: 0 <= i < |after| ==>
      (Playable(after[i]) <==> Playable(before[i]) && before[i].id != FirstPlayable(before).value.id)
    ensures |PlayableIds(before)| > 0 && PlayableIds(after) == PlayableIds(before)[1..]
    decreases |before|
  {
    if Playable(before[0]) {
      SamePlayable(after[1..], before[1..]);
    } else {
      FirstPassedOver(before[1..], after[1..]);
    }
  }

  // ----- single attempts -----

  /** With nothing playable left, or the first playable item loaded, an attempt changes neither. */
  lemma NothingToDo(s: System, a: Attempt)
    requires Tries(s, a)
    requires FirstPlayable(s.queue.items).Some? ==> s.loaded == Some(FirstPlayable(s.queue.items).value.id)
    ensures var s' := Reconciled(s, a);
      && s'.queue.items == s.queue.items && !s'.stopped && s'.retryAfter == s.retryAfter
      && s'.loaded == if FirstPlayable(s.queue.items).Some? then s.loaded else None
  {
  }

  /** An attempt on an item either loads it or passes it over. */
  lemma OneTry(s: System, limit: nat, a: Attempt)
    requires SystemInv(s, limit) && s.loaded.None? && Tries(s, a) && FirstPlayable(s.queue.items).Some?
    ensures var s', ids := Reconciled(s, a), PlayableIds(s.queue.items);
      && !s'.stopped && s'.retryAfter == s.retryAfter && |ids| > 0
      && s'.loaded == (if Works(a) then Some(ids[0]) else None)
      && PlayableIds(s'.queue.items) == if Works(a) then ids else ids[1..]
  {
    var before, after := s.queue.items, Reconciled(s, a).queue.items;
    FirstOfPlayable(before);
    InvIsDistinct(s.queue);
    TryLeavesTimes(s, a);
    hide SystemInv, Reconciled;
    if Works(a) {
      LoadingAgrees(s, limit, a);
      SameLengthIds(after, before);
      SamePlayable(after, before);
    } else {
      BrokenItemIsPassedOver(s, limit, a);
      SameLengthIds(after, before);
      FirstPassedOver(before, after);
    }
  }

  lemma TryLeavesTimes(s: System, a: Attempt)
    ensures Reconciled(s, a).stopped == s.stopped && Reconciled(s, a).retryAfter == s.retryAfter
  {
  }

  // ----- progress -----

  lemma TriesStill(s: System, s': System, attempts: seq<Attempt>)
    requires s'.stopped == s.stopped && s'.retryAfter == s.retryAfter
    requires forall i :: 0 <= i < |attempts| ==> Tries(s, attempts[i])
    ensures forall i :: 0 <= i < |attempts| ==> Tries(s', attempts[i])
  {
  }

  /** What is left of the playable items after n of them were passed over. */
  function After(ids: seq<Id>, n: nat): seq<Id> {
    ids[if n < |ids| then n else |ids|..]
  }

  lemma AfterOne(ids: seq<Id>, n: nat)
    requires |ids| > 0
    ensures After(ids[1..], n) == After(ids, n + 1)
  {
  }

  /** Once the first playable item is loaded, or none is left, that stays so. */
  lemma {:induction false} Stays(s: System, limit: nat, attempts: seq<Attempt>)
    requires forall i :: 0 <= i < |attempts| ==> Tries(s, attempts[i])
    requires FirstPlayable(s.queue.items).Some? ==> s.loaded == Some(FirstPlayable(s.queue.items).value.id)
    requires FirstPlayable(s.queue.items).None? ==> s.loaded.None?
    ensures var s' := AdvanceAll(s, limit, Ticks(attempts));
      s'.queue.items == s.queue.items && s'.loaded == s.loaded
    decreases |attempts|
  {
    if |attempts| > 0 {
      NothingToDo(s, attempts[0]);
      assert Ticks(attempts)[1..] == Ticks(attempts[1..]);
      hide Reconciled, FirstPlayable;
      Stays(Reconciled(s, attempts[0]), limit, attempts[1..]);
    }
  }

  /**
   From a running controller with nothing loaded, attempts pass over one playable
   item each until the first that works: it loads the item whose turn it is, and
   that stays loaded.  If none works in time, nothing is loaded, and as many items
   as there were attempts are not playable any more.
   */
  lemma {:induction false} AttemptsProgress(s: System, limit: nat, attempts: seq<Attempt>)
    requires SystemInv(s, limit) && s.loaded.None?
    requires forall i :: 0 <= i < |attempts| ==> Tries(s, attempts[i])
    ensures var s', ids, n := AdvanceAll(s, limit, Ticks(attempts)), PlayableIds(s.queue.items), Broken(attempts);
      if n < |attempts| && n < |ids|
      then s'.loaded == Some(ids[n]) && PlayableIds(s'.queue.items) == After(ids, n)
      else s'.loaded.None? && PlayableIds(s'.queue.items) == After(ids, n)
    decreases |attempts|
  {
    FirstOfPlayable(s.queue.items);
    if FirstPlayable(s.queue.items).None? {
      Stays(s, limit, attempts);
    } else if |attempts| > 0 {
      var a, s' := attempts[0], Reconciled(s, attempts[0]);
      OneTry(s, limit, a);
      assert Ticks(attempts)[1..] == Ticks(attempts[1..]);
      StepKeepsInv(s, limit, Reconcile(a));
      FirstOfPlayable(s'.queue.items);
      TriesStill(s, s', attempts[1..]);
      AfterOne(PlayableIds(s.queue.items), Broken(attempts[1..]));
      hide SystemInv, Reconciled, FirstPlayable, Tries, Possible;
      if Works(a) {
        Stays(s', limit, attempts[1..]);
      } else {
        AttemptsProgress(s', limit, attempts[1..]);
      }
    }
  }

  /** So as many attempts as there are playable items load one, or leave none playable. */
  lemma PlaybackProgresses(s: System, limit: nat, attempts: seq<Attempt>)
    requires SystemInv(s, limit) && s.loaded.None? && |attempts| >= |PlayableIds(s.queue.items)|
    requires forall i :: 0 <= i < |attempts| ==> Tries(s, attempts[i])
    ensures var s' := AdvanceAll(s, limit, Ticks(attempts));
      s'.loaded.Some? || FirstPlayable(s'.queue.items).None?
  {
    AttemptsProgress(s, limit, attempts);
    FirstOfPlayable(AdvanceAll(s, limit, Ticks(attempts)).queue.items);
  }
}
