/**
 With reordering nothing bounds the ends and failures: clients can take the mark
 `current` off a loaded item by moving another item ahead of it, and then its end
 is not stored.
 */
module Reordering {
  import opened Wrappers
  import opened Positions
  import opened QueueModel
  import opened ControllerModel
  import opened PlaybackRuns
  import opened Drain

  const LOADS := Attempt(0, true, [], [], true, Success(()), [], Loaded, true)

  /** The player is away for a moment. */
  const AWAY := Attempt(0, true, [], [], true, Success(()), [], PlayerUnavailable("away"), true)

  /** Two playable items at the given revision, nothing loaded, and nothing in the way of loading. */
  predicate Waiting(s: System, x: Id, y: Id, revision: int) {
    && |s.queue.items| == 2 && s.queue.items[0].id == x && s.queue.items[1].id == y && x != y
    && Playable(s.queue.items[0]) && Playable(s.queue.items[1])
    && s.queue.revision == revision && !s.stopped && s.retryAfter.None?
  }

  lemma ChooseOfTwo(q: QueueState, x: Id, y: Id)
    requires |q.items| == 2 && q.items[0].id == x && q.items[1].id == y && x != y
    requires Playable(q.items[0]) && Playable(q.items[1])
    ensures FirstPlayable(q.items) == Some(q.items[0]) && Transact(q, SetCurrent(x)).Success?
    ensures var chosen := Apply(q, SetCurrent(x));
      && |chosen.items| == 2 && chosen.items[0].id == x && chosen.items[1].id == y
      && Playable(chosen.items[0]) && Playable(chosen.items[1]) && chosen.items[1].status != Current
      && chosen.revision == q.revision
  {
    assert HasStatus(DemoteAll(q.items), x, Queued) by { assert DemoteAll(q.items)[0].id == x; }
  }

  lemma NothingHappens(q: QueueState)
    ensures Run(q, []) == q
  {
  }

  /** The item just chosen leads, and the other one is not current. */
  lemma AttemptOnTwo(s: System, a: Attempt, x: Id, y: Id, revision: int)
    requires Waiting(s, x, y, revision) && s.loaded != Some(x) && (a == LOADS || a == AWAY)
    ensures Waiting(Reconciled(s, a), x, y, revision) && Reconciled(s, a).queue.items[1].status != Current
    ensures Reconciled(s, a).loaded == if a == LOADS then Some(x) else s.loaded
    ensures !Breaks(s, a)
  {
    ChooseOfTwo(s.queue, x, y);
    NothingHappens(s.queue);
    NothingHappens(Apply(s.queue, SetCurrent(x)));
    hide Run, MadeCurrent, FirstPlayable;
  }

  lemma SwapTwo(s: System, limit: nat, x: Id, y: Id, revision: int)
    requires Waiting(s, x, y, revision)
    ensures var s' := Advance(s, limit, Edit(Reorder([y, x], revision)));
      Waiting(s', y, x, revision + 1) && s'.loaded == s.loaded && s'.queue.items[0].status == s.queue.items[1].status
      && s'.queue.items[1].status == s.queue.items[0].status
  {
    assert s.queue.items[0].id == x && s.queue.items[1].id == y;
    assert Arranged(s.queue.items, [y, x]) == [s.queue.items[1], s.queue.items[0]];
  }

  /** The loaded item ends while its row is not current: it stays in the queue. */
  lemma EndIsLost(s: System, limit: nat, x: Id, y: Id, revision: int)
    requires Waiting(s, x, y, revision) && s.loaded == Some(y) && s.queue.items[1].status != Current
    ensures Spends(s, Ended("", true))
    ensures var s' := Advance(s, limit, Ended("", true)); Waiting(s', x, y, revision) && s'.loaded.None?
  {
    assert s.queue.items[1].id == y;
    assert !HasStatus(s.queue.items, y, Current);
  }

  /** Load a; move b ahead; b is chosen while the player is away; a ends; move a back. */
  function Round(revision: int): seq<Step> {
    [Reconcile(LOADS), Edit(Reorder(["b", "a"], revision)), Reconcile(AWAY), Ended("", true),
     Edit(Reorder(["a", "b"], revision + 1))]
  }

  function Rounds(n: nat, revision: int): seq<Step> {
    if n == 0 then [] else Round(revision) + Rounds(n - 1, revision + 2)
  }

  function AddTwo(n: nat): seq<Step> {
    [Edit(Direct("a"))] + ([Edit(Direct("b"))] + Rounds(n, 2))
  }

  lemma SpentStep(s: System, limit: nat, step: Step, rest: seq<Step>)
    ensures Spent(s, limit, [step] + rest) ==
            (if Spends(s, step) then 1 else 0) + Spent(Advance(s, limit, step), limit, rest)
    ensures Added([step] + rest) == StepAdds(step) + Added(rest)
  {
    assert ([step] + rest)[1..] == rest;
  }

  lemma {:induction false} SpentConcat(s: System, limit: nat, a: seq<Step>, b: seq<Step>)
    ensures Spent(s, limit, a + b) == Spent(s, limit, a) + Spent(AdvanceAll(s, limit, a), limit, b)
    decreases |a|
  {
    hide Advance, Spends;
    if |a| == 0 {
      assert a + b == b;
    } else {
      assert (a + b)[1..] == a[1..] + b;
      SpentConcat(Advance(s, limit, a[0]), limit, a[1..], b);
    }
  }

  lemma SpentOfTwo(s: System, limit: nat, steps: seq<Step>)
    requires |steps| >= 2
    ensures var s1 := Advance(s, limit, steps[0]);
      var s2 := Advance(s1, limit, steps[1]);
      && Spent(s, limit, steps) == (if Spends(s, steps[0]) then 1 else 0) + (if Spends(s1, steps[1]) then 1 else 0)
                                   + Spent(s2, limit, steps[2..])
      && AdvanceAll(s, limit, steps) == AdvanceAll(s2, limit, steps[2..])
  {
    hide Advance, Spends;
    assert steps[1..][1..] == steps[2..];
  }

  lemma RoundSpends(s: System, limit: nat, revision: int)
    requires Waiting(s, "a", "b", revision) && s.loaded.None?
    ensures Spent(s, limit, Round(revision)) == 1
    ensures var s5 := AdvanceAll(s, limit, Round(revision)); Waiting(s5, "a", "b", revision + 2) && s5.loaded.None?
  {
    var s1, s2, s3, s4 := OneRound(s, limit, revision);
    var steps := Round(revision);
    assert !Spends(s1, steps[1]) && !Spends(s4, steps[4]);
    hide Advance, Spends, Waiting;
    SpentOfTwo(s, limit, steps);
    SpentOfTwo(s2, limit, steps[2..]);
    assert steps[2..][2..] == [steps[4]];
    var s5 := Advance(s4, limit, steps[4]);
    SpentStep(s4, limit, steps[4], []);
    assert AdvanceAll(s4, limit, [steps[4]]) == AdvanceAll(s5, limit, []);
  }

  /** One round spends once, and leaves the items where they were. */
  lemma OneRound(s: System, limit: nat, revision: int) returns (s1: System, s2: System, s3: System, s4: System)
    requires Waiting(s, "a", "b", revision) && s.loaded.None?
    ensures s1 == Advance(s, limit, Reconcile(LOADS)) && !Spends(s, Reconcile(LOADS))
    ensures s2 == Advance(s1, limit, Edit(Reorder(["b", "a"], revision)))
    ensures s3 == Advance(s2, limit, Reconcile(AWAY)) && !Spends(s2, Reconcile(AWAY))
    ensures s4 == Advance(s3, limit, Ended("", true)) && Spends(s3, Ended("", true))
    ensures var s5 := Advance(s4, limit, Edit(Reorder(["a", "b"], revision + 1)));
      Waiting(s5, "a", "b", revision + 2) && s5.loaded.None?
  {
    s1 := Advance(s, limit, Reconcile(LOADS));
    s2 := Advance(s1, limit, Edit(Reorder(["b", "a"], revision)));
    s3 := Advance(s2, limit, Reconcile(AWAY));
    s4 := Advance(s3, limit, Ended("", true));
    hide Reconciled, Transact, Waiting, AfterEnd, Breaks;
    AttemptOnTwo(s, LOADS, "a", "b", revision);
    SwapTwo(s1, limit, "a", "b", revision);
    AttemptOnTwo(s2, AWAY, "b", "a", revision + 1);
    TwoItems(s3, "b", "a", revision + 1);
    EndIsLost(s3, limit, "b", "a", revision + 1);
    SwapTwo(s4, limit, "b", "a", revision + 1);
  }

  lemma TwoItems(s: System, x: Id, y: Id, revision: int)
    requires Waiting(s, x, y, revision)
    ensures |s.queue.items| == 2
  {
  }

  lemma {:induction false} RoundsSpend(s: System, limit: nat, n: nat, revision: int)
    requires Waiting(s, "a", "b", revision) && s.loaded.None?
    ensures Spent(s, limit, Rounds(n, revision)) == n
    decreases n
  {
    hide Waiting, Round, Advance, Spends;
    if n > 0 {
      RoundSpends(s, limit, revision);
      hide Spent, AdvanceAll;
      RoundsSpend(AdvanceAll(s, limit, Round(revision)), limit, n - 1, revision + 2);
      SpentConcat(s, limit, Round(revision), Rounds(n - 1, revision + 2));
    } else {
      assert Spent(s, limit, []) == 0;
    }
  }

  lemma {:induction false} RoundsArePossible(n: nat, revision: int)
    ensures forall step :: step in Rounds(n, revision) ==> Possible(step) && !step.Restart? && StepAdds(step) == 0
    decreases n
  {
    if n > 0 {
      RoundsArePossible(n - 1, revision + 2);
      assert Adds([Reorder(["b", "a"], revision)]) == Adds([Reorder(["a", "b"], revision + 1)]) == 0;
    }
  }

  lemma {:induction false} NothingAdded(steps: seq<Step>)
    requires forall step :: step in steps ==> StepAdds(step) == 0
    ensures Added(steps) == 0
    decreases |steps|
  {
    if |steps| > 0 {
      assert steps[0] in steps;
      NothingAdded(steps[1..]);
    }
  }

  lemma TwoWaiting(limit: nat)
    ensures var s1 := Advance(Started(EMPTY_QUEUE), limit, Edit(Direct("a")));
      var s2 := Advance(s1, limit, Edit(Direct("b")));
      Waiting(s2, "a", "b", 2) && s2.loaded.None?
  {
    var s1 := Advance(Started(EMPTY_QUEUE), limit, Edit(Direct("a")));
    assert s1.queue.items == [Row("a", Queued, "")];
  }

  /**
   Two items suffice for any number of ends of loaded items, whatever the retry
   limit: with reordering there is no bound at all.
   */
  lemma ReorderingDefeatsTheBudget(limit: nat, n: nat)
    ensures forall step :: step in AddTwo(n) ==> Possible(step) && !step.Restart?
    ensures Added(AddTwo(n)) == 2
    ensures Spent(Started(EMPTY_QUEUE), limit, AddTwo(n)) == n
  {
    var s, a, b := Started(EMPTY_QUEUE), Edit(Direct("a")), Edit(Direct("b"));
    RoundsArePossible(n, 2);
    NothingAdded(Rounds(n, 2));
    TwoWaiting(limit);
    hide Advance, Waiting, Rounds, Added, Spent, Started;
    RoundsSpend(Advance(Advance(s, limit, a), limit, b), limit, n, 2);
    SpentStep(s, limit, a, [b] + Rounds(n, 2));
    SpentStep(Advance(s, limit, a), limit, b, Rounds(n, 2));
    assert Adds([a.edit]) == Adds([b.edit]) == 1;
  }
}
