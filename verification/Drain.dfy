/**
 The queue drains.  Each playable item has a budget of loads it may still
 waste: one more than the retries it has left.  The total budget pays for every
 end and every failure of a loaded item whose row is still current, and for every
 item that cannot be resolved or loaded, so broken items use up no more than it.
 Without reordering a loaded item's row stays current; with it, nothing bounds them.
 */
module Drain {
  import opened Wrappers
  import opened Positions
  import opened QueueModel
  import opened ControllerModel
  import opened PlaybackRuns

  /** What one item may still waste; the item `but` is not counted. */
  function Allowance(x: Item, retries: map<Id, nat>, limit: nat, but: Option<Id>): int {
    if Playable(x) && but != Some(x.id) then limit + 1 - Attempts(retries, x.id) else 0
  }

  function Budget(items: seq<Item>, retries: map<Id, nat>, limit: nat, but: Option<Id>): int {
    if |items| == 0 then 0
    else Allowance(items[0], retries, limit, but) + Budget(items[1..], retries, limit, but)
  }

  function Left(s: System, limit: nat): int {
    Budget(s.queue.items, s.retries, limit, None)
  }

  function Adds(ts: seq<Transaction>): nat {
    if |ts| == 0 then 0 else (if ts[0].Add? then 1 else 0) + Adds(ts[1..])
  }

  function StepAdds(step: Step): nat {
    match step
    case Edit(edit) => Adds([edit])
    case Reconcile(a) => Adds(a.torn) + Adds(a.before) + Adds(a.during)
    case _ => 0
  }

  predicate Orderly(ts: seq<Transaction>) {
    forall i :: 0 <= i < |ts| ==> ClientEdit(ts[i]) && !ts[i].Reorder?
  }

  /** A possible step of one process lifetime that reorders nothing and whose changes the database stores. */
  predicate InOrder(step: Step) {
    Possible(step) &&
    match step
    case Edit(edit) => !edit.Reorder?
    case Reconcile(a) => Orderly(a.torn) && Orderly(a.before) && Orderly(a.during) && a.saved
    case Ended(_, saved) => saved
    case Failed(_, _, _, saved) => saved
    case Restart => false
    case _ => true
  }

  /** The end or failure of a loaded item still in the queue, or a load that fails. */
  predicate Spends(s: System, step: Step) {
    match step
    case Ended(_, _) => s.loaded.Some? && HasId(s.queue.items, s.loaded.value)
    case Failed(_, _, _, _) => s.loaded.Some? && HasId(s.queue.items, s.loaded.value)
    case Reconcile(a) => Breaks(s, a)
    case _ => false
  }

  predicate LoadedIsCurrent(s: System) {
    s.loaded.Some? && HasStatus(s.queue.items, s.loaded.value, Current)
  }

  predicate LoadedIsPlayable(s: System) {
    s.loaded.Some? && exists i :: 0 <= i < |s.queue.items| && s.queue.items[i].id == s.loaded.value
                                  && Playable(s.queue.items[i])
  }

  /** A retry is paid for by the retry; any other outcome only if it is stored, and so finds the row current. */
  predicate Paid(s: System, limit: nat, step: Step) {
    match step
    case Ended(_, saved) => saved && LoadedIsCurrent(s)
    case Failed(_, _, _, saved) =>
      if s.loaded.Some? && Attempts(s.retries, s.loaded.value) < limit then LoadedIsPlayable(s)
      else saved && LoadedIsCurrent(s)
    case Reconcile(a) => a.saved
    case _ => true
  }

  // ----- arithmetic of the budget -----

  lemma {:induction false} BudgetConcat(a: seq<Item>, b: seq<Item>, retries: map<Id, nat>, limit: nat, but: Option<Id>)
    ensures Budget(a + b, retries, limit, but) == Budget(a, retries, limit, but) + Budget(b, retries, limit, but)
    decreases |a|
  {
    if |a| == 0 {
      assert a + b == b;
    } else {
      assert (a + b)[1..] == a[1..] + b;
      BudgetConcat(a[1..], b, retries, limit, but);
    }
  }

  lemma {:induction false} BudgetSame(a: seq<Item>, b: seq<Item>, ra: map<Id, nat>, rb: map<Id, nat>, limit: nat,
                                      but: Option<Id>)
    requires |a| == |b|
    requires forall i :: 0 <= i < |a| ==> Allowance(a[i], ra, limit, but) == Allowance(b[i], rb, limit, but)
    ensures Budget(a, ra, limit, but) == Budget(b, rb, limit, but)
    decreases |a|
  {
    if |a| > 0 {
      BudgetSame(a[1..], b[1..], ra, rb, limit, but);
    }
  }

  predicate Bounded(retries: map<Id, nat>, limit: nat) {
    forall id :: id in retries ==> retries[id] <= limit
  }

  lemma {:induction false} BudgetBounds(items: seq<Item>, retries: map<Id, nat>, limit: nat, but: Option<Id>)
    requires Bounded(retries, limit)
    ensures 0 <= Budget(items, retries, limit, but) <= (limit + 1) * |items|
    decreases |items|
  {
    if |items| > 0 {
      BudgetBounds(items[1..], retries, limit, but);
      AddCosts(limit, 1, |items| - 1);
    }
  }

  lemma BudgetAt(items: seq<Item>, k: nat, retries: map<Id, nat>, limit: nat, but: Option<Id>)
    requires k < |items|
    ensures Budget(items, retries, limit, but) ==
            Budget(items[..k], retries, limit, but) + Allowance(items[k], retries, limit, but)
            + Budget(items[k + 1..], retries, limit, but)
  {
    assert items == items[..k] + ([items[k]] + items[k + 1..]);
    BudgetConcat(items[..k], [items[k]] + items[k + 1..], retries, limit, but);
    assert ([items[k]] + items[k + 1..])[1..] == items[k + 1..];
  }

  /** Leaving out an item of the queue leaves out exactly its allowance. */
  lemma SplitOff(items: seq<Item>, k: nat, retries: map<Id, nat>, limit: nat)
    requires k < |items| && DistinctItems(items)
    ensures Budget(items, retries, limit, None) ==
            Budget(items, retries, limit, Some(items[k].id)) + Allowance(items[k], retries, limit, None)
  {
    var but := Some(items[k].id);
    BudgetAt(items, k, retries, limit, None);
    BudgetAt(items, k, retries, limit, but);
    BudgetSame(items[..k], items[..k], retries, retries, limit, None);
    SameBut(items[..k], retries, limit, items[k].id);
    SameBut(items[k + 1..], retries, limit, items[k].id);
  }

  lemma {:induction false} SameBut(items: seq<Item>, retries: map<Id, nat>, limit: nat, id: Id)
    requires forall i :: 0 <= i < |items| ==> items[i].id != id || !Playable(items[i])
    ensures Budget(items, retries, limit, None) == Budget(items, retries, limit, Some(id))
    decreases |items|
  {
    if |items| > 0 {
      SameBut(items[1..], retries, limit, id);
    }
  }

  // ----- client edits -----

  lemma CutCosts(items: seq<Item>, k: nat, retries: map<Id, nat>, limit: nat, but: Option<Id>)
    requires k < |items| && Bounded(retries, limit)
    ensures Budget(items[..k] + items[k + 1..], retries, limit, but) <= Budget(items, retries, limit, but)
    ensures k == 0 ==> Budget(items[1..], retries, limit, but) <= Budget(items, retries, limit, but)
  {
    BudgetAt(items, k, retries, limit, but);
    BudgetConcat(items[..k], items[k + 1..], retries, limit, but);
  }

  lemma AppendCosts(items: seq<Item>, x: Item, retries: map<Id, nat>, limit: nat, but: Option<Id>)
    ensures Budget(items + [x], retries, limit, but) <= Budget(items, retries, limit, but) + limit + 1
  {
    BudgetConcat(items, [x], retries, limit, but);
    assert [x][1..] == [];
  }

  lemma OneEditCosts(t: Transaction, limit: nat)
    ensures (limit + 1) * Adds([t]) == if t.Add? then limit + 1 else 0
  {
    assert Adds([t]) == if t.Add? then 1 else 0;
  }

  lemma RestCovers(a: seq<Item>, b: seq<Item>, k: nat)
    requires |a| == |b| && DistinctItems(a) && DistinctItems(b) && k < |b| && |a| > 0 && b[k] == a[0]
    requires forall x :: x in a ==> x in b
    ensures var rest := b[..k] + b[k + 1..]; DistinctItems(rest) && forall x :: x in a[1..] ==> x in rest
  {
    var rest := b[..k] + b[k + 1..];
    forall x | x in a[1..] ensures x in rest {
      assert x in a;
      var i :| 0 <= i < |b| && b[i] == x;
      assert rest[if i < k then i else i - 1] == x;
    }
  }

  /** The same rows in another order. */
  lemma {:induction false} PermutedBudget(a: seq<Item>, b: seq<Item>, retries: map<Id, nat>, limit: nat,
                                          but: Option<Id>)
    requires |a| == |b| && DistinctItems(a) && DistinctItems(b)
    requires forall x :: x in a ==> x in b
    ensures Budget(a, retries, limit, but) == Budget(b, retries, limit, but)
    decreases |a|
  {
    if |a| > 0 {
      assert a[0] in b;
      var k :| 0 <= k < |b| && b[k] == a[0];
      RestCovers(a, b, k);
      PermutedBudget(a[1..], b[..k] + b[k + 1..], retries, limit, but);
      hide DistinctItems, Allowance;
      BudgetAt(b, k, retries, limit, but);
      BudgetConcat(b[..k], b[k + 1..], retries, limit, but);
    }
  }

  lemma ReorderCosts(q: QueueState, t: Transaction, retries: map<Id, nat>, limit: nat, but: Option<Id>)
    requires DistinctItems(q.items) && t.Reorder? && Transact(q, t).Success?
    ensures Budget(Apply(q, t).items, retries, limit, but) == Budget(q.items, retries, limit, but)
  {
    ArrangedKeeps(q.items, t.ids);
    PermutedBudget(Arranged(q.items, t.ids), q.items, retries, limit, but);
  }

  lemma EditCosts(q: QueueState, t: Transaction, retries: map<Id, nat>, limit: nat, but: Option<Id>)
    requires Inv(q) && ClientEdit(t) && Bounded(retries, limit)
    ensures Budget(Apply(q, t).items, retries, limit, but)
            <= Budget(q.items, retries, limit, but) + (limit + 1) * Adds([t])
  {
    BudgetBounds(q.items, retries, limit, but);
    InvDistinct(q);
    OneEditCosts(t, limit);
    if Transact(q, t).Success? {
      match t
      case Add(id, kind, url, title, submitter, _) =>
        hide Inv, Bounded, DistinctItems, Adds, Budget, Without;
        AppendCosts(q.items, Item(id, kind, url, title, submitter, Queued, ""), retries, limit, but);
      case Remove(id, _) =>
        hide Inv, Bounded, DistinctItems, Adds, Budget, Without;
        var k :| 0 <= k < |q.items| && q.items[k].id == id;
        WithoutSplit(q.items, k);
        CutCosts(q.items, k, retries, limit, but);
      case Skip(_) =>
        hide Inv, Bounded, DistinctItems, Adds, Budget, Without;
        CutCosts(q.items, 0, retries, limit, but);
      case Clear(_) => BudgetBounds([], retries, limit, but);
      case Reorder(_, _) =>
        hide Inv, Bounded, DistinctItems, Adds, Budget, Transact;
        ReorderCosts(q, t, retries, limit, but);
    }
  }

  lemma {:induction false} EditsCost(q: QueueState, ts: seq<Transaction>, retries: map<Id, nat>, limit: nat,
                                     but: Option<Id>)
    requires Inv(q) && ClientEdits(ts) && Bounded(retries, limit)
    ensures Budget(Run(q, ts).items, retries, limit, but)
            <= Budget(q.items, retries, limit, but) + (limit + 1) * Adds(ts)
    decreases |ts|
  {
    hide Inv, Apply, Bounded, Budget;
    if |ts| > 0 {
      TransactionKeepsInv(q, ts[0]);
      EditCosts(q, ts[0], retries, limit, but);
      EditsCost(Apply(q, ts[0]), ts[1..], retries, limit, but);
      assert Adds(ts) == Adds([ts[0]]) + Adds(ts[1..]);
      AddCosts(limit, Adds([ts[0]]), Adds(ts[1..]));
    }
  }

  /** Unless its row goes, an item keeps its status when clients edit the queue. */
  lemma EditKeepsStatus(q: QueueState, t: Transaction, id: Id, status: ItemStatus)
    requires DistinctItems(q.items) && ClientEdit(t) && id in q.issued
    requires HasId(q.items, id) ==> HasStatus(q.items, id, status)
    ensures HasId(Apply(q, t).items, id) ==> HasStatus(Apply(q, t).items, id, status)
    ensures id in Apply(q, t).issued
  {
    var after := Apply(q, t).items;
    if t.Remove? { WithoutKeeps(q.items, t.id); }
    if i :| 0 <= i < |after| && after[i].id == id {
      if after[i] in q.items {
        var k :| 0 <= k < |q.items| && q.items[k] == after[i];
        assert after[i].status == status;
      }
    }
  }

  lemma {:induction false} EditsKeepStatus(q: QueueState, ts: seq<Transaction>, id: Id, status: ItemStatus)
    requires Inv(q) && ClientEdits(ts) && id in q.issued
    requires HasId(q.items, id) ==> HasStatus(q.items, id, status)
    ensures HasId(Run(q, ts).items, id) ==> HasStatus(Run(q, ts).items, id, status)
    decreases |ts|
  {
    hide HasStatus, HasId;
    if |ts| > 0 {
      TransactionKeepsInv(q, ts[0]);
      EditKeepsStatus(q, ts[0], id, status);
      hide Inv, Apply;
      EditsKeepStatus(Apply(q, ts[0]), ts[1..], id, status);
    }
  }

  /** Unless its row goes, a leading item still leads after an edit that reorders nothing. */
  lemma EditKeepsLeader(q: QueueState, t: Transaction, id: Id, status: ItemStatus)
    requires Inv(q) && Orderly([t]) && id in q.issued
    requires HasId(q.items, id) ==> Leads(q.items, id, status)
    ensures HasId(Apply(q, t).items, id) ==> Leads(Apply(q, t).items, id, status)
  {
    assert ClientEdit([t][0]) && ![t][0].Reorder?;
    hide Leads, DistinctItems, OneCurrent, CurrentAgrees;
    var after := Apply(q, t).items;
    if Transact(q, t).Success? && HasId(after, id) {
      match t
      case Add(_, _, _, _, _, _) =>
        LeaderSurvivesAppend(q.items, after[|q.items|], id, status);
      case Remove(removed, _) => RemoveKeepsLeader(q.items, removed, id, status);
      case Skip(_) =>
        WithoutSplit(q.items, 0);
        assert q.items[..0] + q.items[1..] == after;
        RemoveKeepsLeader(q.items, q.items[0].id, id, status);
      case Clear(_) =>
    }
  }

  lemma LeaderSurvivesAppend(items: seq<Item>, x: Item, id: Id, status: ItemStatus)
    requires HasId(items, id) ==> Leads(items, id, status)
    requires HasId(items + [x], id) && x.id != id
    ensures Leads(items + [x], id, status)
  {
    var i :| 0 <= i < |items + [x]| && (items + [x])[i].id == id;
    assert items[i].id == id;
    var k :| 0 <= k < |items| && LeadsAt(items, k, id, status);
    assert LeadsAt(items + [x], k, id, status);
  }

  lemma RemoveKeepsLeader(items: seq<Item>, removed: Id, id: Id, status: ItemStatus)
    requires DistinctItems(items) && HasId(items, removed)
    requires HasId(items, id) ==> Leads(items, id, status)
    ensures HasId(Without(items, removed), id) ==> Leads(Without(items, removed), id, status)
  {
    WithoutKeeps(items, removed);
    if HasId(Without(items, removed), id) {
      var i :| 0 <= i < |Without(items, removed)| && Without(items, removed)[i].id == id;
      assert Without(items, removed)[i] in items;
      var m :| 0 <= m < |items| && items[m].id == removed;
      WithoutSplit(items, m);
      LeaderSurvivesCut(items, m, id, status);
    }
  }

  lemma LeaderSurvivesCut(items: seq<Item>, m: nat, id: Id, status: ItemStatus)
    requires m < |items| && Leads(items, id, status) && items[m].id != id
    ensures Leads(items[..m] + items[m + 1..], id, status)
  {
    var k :| 0 <= k < |items| && LeadsAt(items, k, id, status);
    assert LeadsAt(items[..m] + items[m + 1..], if k < m then k else k - 1, id, status);
  }

  lemma {:induction false} EditsKeepLeader(q: QueueState, ts: seq<Transaction>, id: Id, status: ItemStatus)
    requires Inv(q) && Orderly(ts) && id in q.issued
    requires HasId(q.items, id) ==> Leads(q.items, id, status)
    ensures HasId(Run(q, ts).items, id) ==> Leads(Run(q, ts).items, id, status)
    decreases |ts|
  {
    if |ts| > 0 {
      assert Orderly([ts[0]]) && Orderly(ts[1..]);
      TransactionKeepsInv(q, ts[0]);
      EditKeepsLeader(q, ts[0], id, status);
      EditsKeepLeader(Apply(q, ts[0]), ts[1..], id, status);
    }
  }

  // ----- steps -----

  lemma DeleteSpends(items: seq<Item>, k: nat, retries: map<Id, nat>, limit: nat)
    requires DistinctItems(items) && k < |items|
    ensures Budget(Without(items, items[k].id), retries, limit, None) ==
            Budget(items, retries, limit, Some(items[k].id))
  {
    var id := items[k].id;
    WithoutSplit(items, k);
    BudgetAt(items, k, retries, limit, Some(id));
    BudgetConcat(items[..k], items[k + 1..], retries, limit, Some(id));
    SameBut(items[..k] + items[k + 1..], retries, limit, id);
  }

  lemma FailSpends(items: seq<Item>, id: Id, message: string, retries: map<Id, nat>, limit: nat)
    ensures Budget(MarkAll(items, id, ItemStatus.Failed, message), retries, limit, None)
      == Budget(items, retries, limit, Some(id))
  {
    var failed := MarkAll(items, id, ItemStatus.Failed, message);
    BudgetSame(failed, items, retries, retries, limit, Some(id));
    SameBut(failed, retries, limit, id);
  }

  /** Deleting or failing the current item leaves exactly the budget of the others. */
  lemma FinishSpends(q: QueueState, id: Id, failure: Option<string>, retries: map<Id, nat>, limit: nat)
    requires Inv(q) && (HasId(q.items, id) ==> HasStatus(q.items, id, Current))
    ensures Budget(Apply(q, Finish(id, failure)).items, retries, limit, None) ==
            Budget(q.items, retries, limit, Some(id))
  {
    if HasId(q.items, id) {
      var k :| 0 <= k < |q.items| && q.items[k].id == id && q.items[k].status == Current;
      DeleteSpends(q.items, k, retries, limit);
      if failure.Some? {
        FailSpends(q.items, id, failure.value, retries, limit);
      }
    } else {
      SameBut(q.items, retries, limit, id);
    }
  }

  /** A playable item of the queue has a positive allowance. */
  lemma LeaderHasAllowance(items: seq<Item>, id: Id, retries: map<Id, nat>, limit: nat)
    requires DistinctItems(items) && Bounded(retries, limit) && HasStatus(items, id, Current)
    ensures Budget(items, retries, limit, None) ==
            Budget(items, retries, limit, Some(id)) + limit + 1 - Attempts(retries, id)
  {
    var k :| 0 <= k < |items| && items[k].id == id && items[k].status == Current;
    SplitOff(items, k, retries, limit);
  }

  /** Statuses may change as long as no item turns playable or failed. */
  lemma SamePlayableBudget(a: seq<Item>, b: seq<Item>, retries: map<Id, nat>, limit: nat, but: Option<Id>)
    requires Ids(a) == Ids(b) && |a| == |b|
    requires forall i :: 0 <= i < |a| ==> (Playable(a[i]) <==> Playable(b[i]))
    ensures Budget(a, retries, limit, but) == Budget(b, retries, limit, but)
  {
    SameLengthIds(a, b);
    BudgetSame(a, b, retries, retries, limit, but);
  }

  lemma EndSpends(s: System, limit: nat, title: string, saved: bool)
    requires SystemInv(s, limit) && (Spends(s, Ended(title, saved)) ==> Paid(s, limit, Ended(title, saved)))
    ensures Left(AfterEnd(s, saved), limit) + (if Spends(s, Ended(title, saved)) then 1 else 0) <= Left(s, limit)
  {
    if s.loaded.Some? {
      var id := s.loaded.value;
      var retries := s.retries - {id};
      var items := s.queue.items;
      BudgetSame(items, items, s.retries, retries, limit, Some(id));
      if HasId(items, id) {
        LeaderHasAllowance(items, id, s.retries, limit);
      } else {
        SameBut(items, s.retries, limit, id);
        SameBut(items, retries, limit, id);
      }
      FinishSpends(s.queue, id, None, retries, limit);
    }
  }

  lemma RetriedItems(q: QueueState, id: Id, message: string)
    requires Inv(q)
    ensures var items := Apply(q, Retry(id, message)).items;
      && |items| == |q.items| && DistinctItems(items)
      && forall i :: 0 <= i < |items| ==>
           items[i].id == q.items[i].id && (Playable(items[i]) <==> Playable(q.items[i]))
  {
    OutcomeKeepsInv(q, Retry(id, message));
    if HasStatus(q.items, id, Current) {
      var k :| 0 <= k < |q.items| && q.items[k].id == id && q.items[k].status == Current;
    }
  }

  /** A retry uses up one load of the item's allowance, whether or not its row was requeued. */
  lemma RetrySpends(q: QueueState, id: Id, message: string, saved: bool, retries: map<Id, nat>, limit: nat)
    requires Inv(q) && Bounded(retries, limit)
    ensures Budget(Save(q, Retry(id, message), saved).items, retries[id := Attempts(retries, id) + 1], limit, None) ==
            Budget(q.items, retries, limit, None)
            - (if exists k :: 0 <= k < |q.items| && q.items[k].id == id && Playable(q.items[k]) then 1 else 0)
  {
    RetriedItems(q, id, message);
    InvDistinct(q);
    hide Inv, Apply;
    var items := Save(q, Retry(id, message), saved).items;
    var retries' := retries[id := Attempts(retries, id) + 1];
    BudgetSame(items, q.items, retries', retries, limit, Some(id));
    if k :| 0 <= k < |q.items| && q.items[k].id == id {
      SplitOff(q.items, k, retries, limit);
      SplitOff(items, k, retries', limit);
    } else {
      SameBut(q.items, retries, limit, id);
      SameBut(items, retries', limit, id);
    }
  }

  lemma LastFailureSpends(s: System, limit: nat, now: int, message: string, saved: bool)
    requires SystemInv(s, limit) && s.loaded.Some? && Attempts(s.retries, s.loaded.value) >= limit
    requires HasId(s.queue.items, s.loaded.value) ==> saved && LoadedIsCurrent(s)
    ensures Left(AfterFailure(s, limit, now, message, saved), limit)
            + (if HasId(s.queue.items, s.loaded.value) then 1 else 0) <= Left(s, limit)
  {
    var id := s.loaded.value;
    var retries := s.retries - {id};
    var items := s.queue.items;
    BudgetSame(items, items, s.retries, retries, limit, Some(id));
    if HasId(items, id) {
      LeaderHasAllowance(items, id, s.retries, limit);
    } else {
      SameBut(items, s.retries, limit, id);
      SameBut(items, retries, limit, id);
    }
    FinishSpends(s.queue, id, Some(message), retries, limit);
  }

  lemma FailureSpends(s: System, limit: nat, now: int, title: string, message: string, saved: bool)
    requires SystemInv(s, limit)
    requires var step := Step.Failed(now, title, message, saved); Spends(s, step) ==> Paid(s, limit, step)
    ensures Left(AfterFailure(s, limit, now, message, saved), limit)
            + (if Spends(s, Step.Failed(now, title, message, saved)) then 1 else 0) <= Left(s, limit)
  {
    if s.loaded.Some? {
      var id := s.loaded.value;
      if Attempts(s.retries, id) < limit {
        RetrySpends(s.queue, id, message, saved, s.retries, limit);
      } else {
        LastFailureSpends(s, limit, now, message, saved);
      }
    }
  }

  lemma AddCosts(limit: nat, a: nat, b: nat)
    ensures (limit + 1) * (a + b) == (limit + 1) * a + (limit + 1) * b
  {
  }

  /** What a reconciliation costs up to the moment an item has been chosen and worked on. */
  lemma ChoiceCosts(s: System, limit: nat, a: Attempt)
    requires SystemInv(s, limit) && Possible(Reconcile(a))
    ensures Budget(Ready(s, a).items, s.retries, limit, None)
            <= Left(s, limit) + (limit + 1) * (Adds(a.torn) + Adds(a.before))
    ensures Inv(Ready(s, a))
  {
    EditsKeepInv(s.queue, a.torn);
    EditsKeepInv(Shown(s, a), a.before);
    EditsCost(s.queue, a.torn, s.retries, limit, None);
    EditsCost(Shown(s, a), a.before, s.retries, limit, None);
  }

  /** A reconciliation that changes no status pays only for what clients added meanwhile. */
  lemma IdleCosts(q: QueueState, q': QueueState, a: Attempt, s: System, limit: nat)
    requires SystemInv(s, limit) && Possible(Reconcile(a)) && q == Ready(s, a)
    requires q' == q || q' == Apply(q, Reset(Idle, ""))
    ensures Budget(Run(q', a.during).items, s.retries, limit, None)
            <= Left(s, limit) + (limit + 1) * StepAdds(Reconcile(a))
  {
    ChoiceCosts(s, limit, a);
    ResetKeepsInv(q, Idle, "");
    hide Inv, Run;
    EditsCost(q', a.during, s.retries, limit, None);
    AddCosts(limit, Adds(a.torn) + Adds(a.before), Adds(a.during));
  }

  /** The chosen item's row is current, and every row as playable as it was. */
  lemma ChoosingKeepsPlayable(q: QueueState, id: Id)
    requires Inv(q) && Transact(q, SetCurrent(id)).Success?
    ensures var chosen := Apply(q, SetCurrent(id));
      && Inv(chosen) && DistinctItems(chosen.items) && HasStatus(chosen.items, id, Current) && id in chosen.issued
      && Ids(chosen.items) == Ids(q.items) && |chosen.items| == |q.items|
      && (forall i :: 0 <= i < |chosen.items| ==> (Playable(chosen.items[i]) <==> Playable(q.items[i])))
  {
    SetCurrentKeepsInv(q, id);
    SetCurrentIssued(q, id);
    InvDistinct(Apply(q, SetCurrent(id)));
    InvDistinct(q);
    var k :| 0 <= k < |q.items| && DemoteAll(q.items)[k].id == id && DemoteAll(q.items)[k].status == Queued;
    assert Playable(q.items[k]);
    hide Inv, DistinctItems;
    ChosenRows(q.items, id, k);
  }

  /** Choosing an item keeps the budget, at least one of it the item's own. */
  lemma ChosenKeepsBudget(before: seq<Item>, after: seq<Item>, id: Id, retries: map<Id, nat>, limit: nat,
                          but: Option<Id>)
    requires DistinctItems(after) && HasStatus(after, id, Current) && Bounded(retries, limit)
    requires Ids(after) == Ids(before) && |after| == |before|
    requires forall i :: 0 <= i < |after| ==> (Playable(after[i]) <==> Playable(before[i]))
    requires but == None || but == Some(id)
    ensures Budget(after, retries, limit, but) + (if but.Some? then 1 else 0) <= Budget(before, retries, limit, None)
  {
    SamePlayableBudget(after, before, retries, limit, None);
    LeaderHasAllowance(after, id, retries, limit);
  }

  lemma ChoiceKeepsBudget(q: QueueState, id: Id, retries: map<Id, nat>, limit: nat, but: Option<Id>)
    requires Inv(q) && Transact(q, SetCurrent(id)).Success? && Bounded(retries, limit)
    requires but == None || but == Some(id)
    ensures var chosen := Apply(q, SetCurrent(id));
      && Inv(chosen)
      && Budget(chosen.items, retries, limit, but) + (if but.Some? then 1 else 0)
         <= Budget(q.items, retries, limit, None)
  {
    ChoosingKeepsPlayable(q, id);
    hide Inv, Apply, Transact, DistinctItems, HasStatus, Budget;
    ChosenKeepsBudget(q.items, Apply(q, SetCurrent(id)).items, id, retries, limit, but);
  }

  /** What the budget and that of the other items come to while the chosen item is worked on. */
  lemma WorkCosts(s: System, limit: nat, a: Attempt, but: Option<Id>)
    requires SystemInv(s, limit) && Possible(Reconcile(a)) && FirstPlayable(Shown(s, a).items).Some?
    requires Transact(Ready(s, a), SetCurrent(ChosenId(s, a))).Success?
    requires but == None || but == Some(ChosenId(s, a))
    ensures var chosen := Apply(Ready(s, a), SetCurrent(ChosenId(s, a)));
      Budget(Run(chosen, a.during).items, s.retries, limit, but) + (if but.Some? then 1 else 0)
      <= Left(s, limit) + (limit + 1) * StepAdds(Reconcile(a))
  {
    hide Inv, Run, Apply, Transact, FirstPlayable, Ready, Shown, Budget, Adds, ChosenId, Left;
    var ready, id := Ready(s, a), ChosenId(s, a);
    var chosen := Apply(ready, SetCurrent(id));
    ChoiceCosts(s, limit, a);
    ChoiceKeepsBudget(ready, id, s.retries, limit, but);
    EditsCost(chosen, a.during, s.retries, limit, but);
    SumOfCosts(limit, Left(s, limit), Budget(ready.items, s.retries, limit, None), Adds(a.torn) + Adds(a.before),
               Budget(chosen.items, s.retries, limit, but), if but.Some? then 1 else 0,
               Budget(Run(chosen, a.during).items, s.retries, limit, but), Adds(a.during));
  }

  /** Costs up to the choice, what is set aside then, and costs from then on. */
  lemma SumOfCosts(limit: nat, left: int, ready: int, early: nat, chosen: int, aside: int, late: int, during: nat)
    requires ready <= left + (limit + 1) * early && chosen + aside <= ready && late <= chosen + (limit + 1) * during
    ensures late + aside <= left + (limit + 1) * (early + during)
  {
    AddCosts(limit, early, during);
  }

  lemma GivenUpIsCurrent(s: System, limit: nat, a: Attempt)
    requires SystemInv(s, limit) && Possible(Reconcile(a)) && Breaks(s, a)
    ensures var q, id := GivenUp(s, a), ChosenId(s, a);
      Inv(q) && (HasId(q.items, id) ==> HasStatus(q.items, id, Current))
  {
    ChoiceCosts(s, limit, a);
    var id := ChosenId(s, a);
    var chosen := Apply(Ready(s, a), SetCurrent(id));
    ChoosingKeepsPlayable(Ready(s, a), id);
    EditsKeepInv(chosen, a.during);
    EditsKeepStatus(chosen, a.during, id, Current);
  }

  lemma BreakSpends(s: System, limit: nat, a: Attempt)
    requires SystemInv(s, limit) && Possible(Reconcile(a)) && Breaks(s, a) && a.saved
    ensures Left(Reconciled(s, a), limit) + 1 <= Left(s, limit) + (limit + 1) * StepAdds(Reconcile(a))
  {
    WorkCosts(s, limit, a, Some(ChosenId(s, a)));
    GivenUpIsCurrent(s, limit, a);
    BreakResult(s, a);
    FinishSpends(GivenUp(s, a), ChosenId(s, a), Some(BreakMessage(a)), s.retries, limit);
  }

  lemma InvDistinct(q: QueueState)
    requires Inv(q)
    ensures DistinctItems(q.items)
  {
  }

  lemma ReconcileSpends(s: System, limit: nat, a: Attempt)
    requires SystemInv(s, limit) && Possible(Reconcile(a)) && (Breaks(s, a) ==> a.saved)
    ensures Left(Reconciled(s, a), limit) + (if Spends(s, Reconcile(a)) then 1 else 0)
            <= Left(s, limit) + (limit + 1) * StepAdds(Reconcile(a))
  {
    hide Inv, Run, MadeCurrent, Possible;
    var ready := Ready(s, a);
    IdleCosts(ready, ready, a, s, limit);
    IdleCosts(ready, Apply(ready, Reset(Idle, "")), a, s, limit);
    if Breaks(s, a) {
      BreakSpends(s, limit, a);
    } else if FirstPlayable(Shown(s, a).items).Some? && Transact(ready, SetCurrent(ChosenId(s, a))).Success? {
      WorkCosts(s, limit, a, None);
      UnbrokenItems(s, a);
    }
  }

  /** A reconciliation that breaks nothing leaves the items as choice and edits left them. */
  lemma UnbrokenItems(s: System, a: Attempt)
    requires !Breaks(s, a) && FirstPlayable(Shown(s, a).items).Some?
    ensures Reconciled(s, a).retries == s.retries
    ensures var items := Reconciled(s, a).queue.items;
      items == Run(Ready(s, a), a.during).items || items == GivenUp(s, a).items
  {
    hide Run, MadeCurrent, Finished;
  }

  predicate Quiet(t: Transaction) {
    t.UpdatePlayback? || t.SetVolume? || t.SetPaused? || t.Reset? || t.Recover?
  }

  lemma QuietCosts(q: QueueState, t: Transaction, retries: map<Id, nat>, limit: nat)
    requires Quiet(t)
    ensures Budget(Apply(q, t).items, retries, limit, None) == Budget(q.items, retries, limit, None)
  {
    BudgetSame(Apply(q, t).items, q.items, retries, retries, limit, None);
  }

  /** Player reports and commands leave every item as playable as it was. */
  lemma OtherStepSpends(s: System, limit: nat, step: Step)
    requires SystemInv(s, limit) && Possible(step)
    requires !step.Reconcile? && !step.Ended? && !step.Failed? && !step.Restart?
    ensures Left(Advance(s, limit, step), limit) <= Left(s, limit) + (limit + 1) * StepAdds(step)
  {
    hide Inv, Transact;
    match step
    case Edit(edit) => EditCosts(s.queue, edit, s.retries, limit, None);
    case StateEvent(state, _) =>
      QuietCosts(s.queue, Reset(Unavailable, state.error), s.retries, limit);
      QuietCosts(s.queue, Reset(Idle, ""), s.retries, limit);
      QuietCosts(s.queue, UpdatePlayback(Overridden(state, s.commandedPause, s.desiredVolume)), s.retries, limit);
    case Pause(_, _) => QuietCosts(s.queue, SetPaused(true), s.retries, limit);
    case Resume(_, _, _) =>
      QuietCosts(s.queue, SetPaused(false), s.retries, limit);
      QuietCosts(s.queue, Recover, s.retries, limit);
    case Stop(_, _) => QuietCosts(s.queue, Reset(Stopped, ""), s.retries, limit);
    case SetVolume(volume, _, _) => QuietCosts(s.queue, Transaction.SetVolume(volume), s.retries, limit);
  }

  /** Any step, reorders included, keeps to the budget; a spending step that is paid lowers it. */
  lemma StepSpends(s: System, limit: nat, step: Step)
    requires SystemInv(s, limit) && Possible(step) && !step.Restart? && (Spends(s, step) ==> Paid(s, limit, step))
    ensures Left(Advance(s, limit, step), limit) + (if Spends(s, step) then 1 else 0)
            <= Left(s, limit) + (limit + 1) * StepAdds(step)
  {
    match step
    case Reconcile(a) => ReconcileSpends(s, limit, a);
    case Ended(title, saved) => EndSpends(s, limit, title, saved);
    case Failed(now, title, message, saved) => FailureSpends(s, limit, now, title, message, saved);
    case _ => OtherStepSpends(s, limit, step);
  }

  // ----- without reordering -----

  /** In runs without reordering, a loaded item still in the queue is current and leads it. */
  ghost predicate LoadedLeads(s: System) {
    s.loaded.Some? && HasId(s.queue.items, s.loaded.value) ==> Leads(s.queue.items, s.loaded.value, Current)
  }

  lemma OrderlyEdits(ts: seq<Transaction>)
    requires Orderly(ts)
    ensures ClientEdits(ts)
  {
  }

  /** Between the snapshot and the choice the shown item still leads, if its row is still there. */
  lemma ChoiceLeads(s: System, limit: nat, a: Attempt)
    requires SystemInv(s, limit) && InOrder(Reconcile(a)) && FirstPlayable(Shown(s, a).items).Some?
    ensures var x := FirstPlayable(Shown(s, a).items).value;
      && Inv(Shown(s, a)) && Inv(Ready(s, a)) && x.id in Shown(s, a).issued
      && (HasId(Ready(s, a).items, x.id) ==> Leads(Ready(s, a).items, x.id, x.status))
      && (HasId(Ready(s, a).items, x.id) <==> Transact(Ready(s, a), SetCurrent(x.id)).Success?)
  {
    hide WellDriven;
    OrderlyEdits(a.torn);
    OrderlyEdits(a.before);
    EditsKeepInv(s.queue, a.torn);
    EditsKeepInv(Shown(s, a), a.before);
    FirstPlayableLeads(Shown(s, a).items);
    var x := FirstPlayable(Shown(s, a).items).value;
    EditsKeepLeader(Shown(s, a), a.before, x.id, x.status);
    if HasId(Ready(s, a).items, x.id) {
      ChooseLeader(Ready(s, a), x.id, x.status);
    }
    if Transact(Ready(s, a), SetCurrent(x.id)).Success? {
      var i :| 0 <= i < |Ready(s, a).items| && Demote(Ready(s, a).items[i]).id == x.id;
    }
  }

  /** The queue after the choice and the edits made while loading: the chosen item leads it, or is gone. */
  lemma ChosenLeads(s: System, limit: nat, a: Attempt)
    requires SystemInv(s, limit) && InOrder(Reconcile(a)) && FirstPlayable(Shown(s, a).items).Some?
    requires Transact(Ready(s, a), SetCurrent(FirstPlayable(Shown(s, a).items).value.id)).Success?
    ensures var id := FirstPlayable(Shown(s, a).items).value.id;
      var chosen := Apply(Ready(s, a), SetCurrent(id));
      && Inv(chosen) && Leads(chosen.items, id, Current) && id in chosen.issued
      && Ids(chosen.items) == Ids(Ready(s, a).items)
      && (forall i :: 0 <= i < |chosen.items| ==> (Playable(chosen.items[i]) <==> Playable(Ready(s, a).items[i])))
      && Inv(Run(chosen, a.during)) && chosen.issued <= Run(chosen, a.during).issued
      && (HasId(Run(chosen, a.during).items, id) ==> Leads(Run(chosen, a.during).items, id, Current))
  {
    hide WellDriven;
    ChoiceLeads(s, limit, a);
    var x := FirstPlayable(Shown(s, a).items).value;
    FirstPlayableLeads(Shown(s, a).items);
    ChooseLeader(Ready(s, a), x.id, x.status);
    SetCurrentKeepsInv(Ready(s, a), x.id);
    SetCurrentIssued(Ready(s, a), x.id);
    OrderlyEdits(a.during);
    var chosen := Apply(Ready(s, a), SetCurrent(x.id));
    SameLengthIds(chosen.items, Ready(s, a).items);
    EditsKeepInv(chosen, a.during);
    EditsKeepLeader(chosen, a.during, x.id, Current);
  }

  /** A removed item does not come back: its id is never issued again. */
  lemma {:induction false} AbsentStaysAbsent(q: QueueState, ts: seq<Transaction>, id: Id)
    requires Inv(q) && Orderly(ts) && id in q.issued && !HasId(q.items, id)
    ensures !HasId(Run(q, ts).items, id)
    decreases |ts|
  {
    if |ts| > 0 {
      assert Orderly([ts[0]]) && Orderly(ts[1..]);
      TransactionKeepsInv(q, ts[0]);
      EditKeepsAbsent(q, ts[0], id);
      AbsentStaysAbsent(Apply(q, ts[0]), ts[1..], id);
    }
  }

  lemma EditKeepsAbsent(q: QueueState, t: Transaction, id: Id)
    requires Orderly([t]) && id in q.issued && !HasId(q.items, id)
    ensures !HasId(Apply(q, t).items, id) && id in Apply(q, t).issued
  {
    assert ClientEdit([t][0]) && ![t][0].Reorder?;
    if t.Remove? {
      WithoutKeeps(q.items, t.id);
      var left := Without(q.items, t.id);
      forall i | 0 <= i < |left| ensures left[i].id != id {
        assert left[i] in q.items;
      }
    }
  }

  /** Where the loaded item stands when the queue has only been edited. */
  lemma LoadedStaysLeading(s: System, limit: nat, a: Attempt)
    requires SystemInv(s, limit) && LoadedLeads(s) && InOrder(Reconcile(a)) && s.loaded.Some?
    ensures var x := s.loaded.value;
      && Inv(Ready(s, a)) && x in Ready(s, a).issued
      && (HasId(Run(Ready(s, a), a.during).items, x) ==> Leads(Run(Ready(s, a), a.during).items, x, Current))
      && (FirstPlayable(Shown(s, a).items).Some? && FirstPlayable(Shown(s, a).items).value.id != x ==>
            !HasId(Ready(s, a).items, x))
  {
    var x := s.loaded.value;
    OrderlyEdits(a.torn);
    OrderlyEdits(a.before);
    EditsKeepInv(s.queue, a.torn);
    EditsKeepInv(Shown(s, a), a.before);
    EditsKeepLeader(s.queue, a.torn, x, Current);
    EditsKeepLeader(Shown(s, a), a.before, x, Current);
    EditsKeepLeader(Ready(s, a), a.during, x, Current);
    if HasId(Shown(s, a).items, x) {
      LeaderIsFirstPlayable(Shown(s, a).items, x, Current);
    } else {
      AbsentStaysAbsent(Shown(s, a), a.before, x);
    }
  }

  lemma SameIdsSameHas(a: seq<Item>, b: seq<Item>, id: Id)
    requires Ids(a) == Ids(b)
    ensures HasId(a, id) ==> HasId(b, id)
  {
    SameLengthIds(a, b);
  }

  /** An old loaded item that is no longer in the queue stays out of it while another is worked on. */
  lemma OldLoadedIsGone(s: System, limit: nat, a: Attempt)
    requires SystemInv(s, limit) && LoadedLeads(s) && InOrder(Reconcile(a)) && s.loaded.Some?
    requires FirstPlayable(Shown(s, a).items).Some? && ChosenId(s, a) != s.loaded.value
    requires Transact(Ready(s, a), SetCurrent(ChosenId(s, a))).Success?
    ensures !HasId(GivenUp(s, a).items, s.loaded.value)
  {
    var id := ChosenId(s, a);
    var chosen := Apply(Ready(s, a), SetCurrent(id));
    LoadedStaysLeading(s, limit, a);
    ChosenLeads(s, limit, a);
    SameIdsSameHas(chosen.items, Ready(s, a).items, s.loaded.value);
    AbsentStaysAbsent(chosen, a.during, s.loaded.value);
  }

  lemma FinishKeepsIds(q: QueueState, id: Id, message: string, x: Id)
    ensures HasId(Apply(q, Finish(id, Some(message))).items, x) ==> HasId(q.items, x)
  {
    var items := Apply(q, Finish(id, Some(message))).items;
    assert |items| == |q.items| && forall i :: 0 <= i < |items| ==> items[i].id == q.items[i].id;
  }

  /** After the player call: the new item is loaded and leads, or the old one stays loaded and gone. */
  lemma AfterLoadLeads(s: System, id: Id, a: Attempt)
    requires HasId(s.queue.items, id) ==> Leads(s.queue.items, id, Current)
    requires s.loaded.Some? ==> !HasId(s.queue.items, s.loaded.value)
    ensures LoadedLeads(AfterLoad(s, id, a))
  {
    if s.loaded.Some? {
      if a.resolved.Failure? {
        FinishKeepsIds(s.queue, id, "resolve source: " + a.resolved.error, s.loaded.value);
      } else if a.load.LoadFailed? {
        FinishKeepsIds(s.queue, id, a.load.message, s.loaded.value);
      }
    }
    hide Finished, HasId, Leads;
  }

  lemma ReconcileKeepsLoadedLeads(s: System, limit: nat, a: Attempt)
    requires SystemInv(s, limit) && LoadedLeads(s) && InOrder(Reconcile(a))
    ensures LoadedLeads(Reconciled(s, a))
  {
    if s.loaded.Some? {
      LoadedStaysLeading(s, limit, a);
    }
    if FirstPlayable(Shown(s, a).items).Some? {
      var id := FirstPlayable(Shown(s, a).items).value.id;
      if s.loaded != Some(id) && Transact(Ready(s, a), SetCurrent(id)).Success? {
        var chosen := Apply(Ready(s, a), SetCurrent(id));
        ChosenLeads(s, limit, a);
        if s.loaded.Some? {
          OldLoadedIsGone(s, limit, a);
        }
        AfterLoadLeads(s.(desiredVolume := s.queue.playback.volume, queue := Run(chosen, a.during)), id, a);
      }
    }
    hide Inv, Run, Transact, Leads, SystemInv, InOrder, HasId, FirstPlayable, Shown, Ready, AfterLoad;
  }

  lemma StepKeepsLoadedLeads(s: System, limit: nat, step: Step)
    requires SystemInv(s, limit) && LoadedLeads(s) && InOrder(step)
    ensures LoadedLeads(Advance(s, limit, step))
  {
    match step
    case Reconcile(a) => ReconcileKeepsLoadedLeads(s, limit, a);
    case Edit(edit) =>
      if s.loaded.Some? {
        assert Orderly([edit]);
        EditKeepsLeader(s.queue, edit, s.loaded.value, Current);
      }
    case StateEvent(state, _) =>
      if s.loaded.Some? {
        RetitleKeepsLeader(s.queue, Overridden(state, s.commandedPause, s.desiredVolume), s.loaded.value);
      }
    case _ =>
  }

  lemma RetitleKeepsLeader(q: QueueState, seen: Playback, id: Id)
    requires HasId(q.items, id) ==> Leads(q.items, id, Current)
    ensures var items := Apply(q, UpdatePlayback(seen)).items; HasId(items, id) ==> Leads(items, id, Current)
  {
    var items := Apply(q, UpdatePlayback(seen)).items;
    if i :| 0 <= i < |items| && items[i].id == id {
      assert q.items[i].id == id;
      var k :| 0 <= k < |q.items| && LeadsAt(q.items, k, id, Current);
      assert LeadsAt(items, k, id, Current);
    }
  }

  // ----- runs -----

  function Spent(s: System, limit: nat, steps: seq<Step>): nat
    decreases |steps|
  {
    if |steps| == 0 then 0
    else (if Spends(s, steps[0]) then 1 else 0) + Spent(Advance(s, limit, steps[0]), limit, steps[1..])
  }

  function Added(steps: seq<Step>): nat {
    if |steps| == 0 then 0 else StepAdds(steps[0]) + Added(steps[1..])
  }

  /** Along the run every spending step is paid for. */
  predicate PaidRun(s: System, limit: nat, steps: seq<Step>)
    decreases |steps|
  {
    |steps| > 0 ==>
      && Possible(steps[0]) && !steps[0].Restart? && (Spends(s, steps[0]) ==> Paid(s, limit, steps[0]))
      && PaidRun(Advance(s, limit, steps[0]), limit, steps[1..])
  }

  /** Along a run whose spending steps are paid for, the budget pays for them and what clients add raises it. */
  lemma {:induction false} RunSpends(s: System, limit: nat, steps: seq<Step>)
    requires SystemInv(s, limit) && PaidRun(s, limit, steps)
    ensures Left(AdvanceAll(s, limit, steps), limit) + Spent(s, limit, steps)
            <= Left(s, limit) + (limit + 1) * Added(steps)
    ensures SystemInv(AdvanceAll(s, limit, steps), limit)
    decreases |steps|
  {
    hide Advance, Possible, SystemInv, Left, Spends, Paid, StepAdds;
    if |steps| > 0 {
      StepSpends(s, limit, steps[0]);
      StepKeepsInv(s, limit, steps[0]);
      RunSpends(Advance(s, limit, steps[0]), limit, steps[1..]);
      AddCosts(limit, StepAdds(steps[0]), Added(steps[1..]));
    }
  }

  /**
   From a process start on n items, with m items added, the ends and failures of
   loaded items and the failed loads number at most (n + m) * (limit + 1), if
   each of them is paid for.
   */
  lemma PaidRunsDrain(q: QueueState, limit: nat, steps: seq<Step>)
    requires Inv(q) && PaidRun(Started(q), limit, steps)
    ensures Spent(Started(q), limit, steps) <= (limit + 1) * (|q.items| + Added(steps))
  {
    TransactionKeepsInv(q, Recover);
    RunSpends(Started(q), limit, steps);
    var end := AdvanceAll(Started(q), limit, steps);
    BudgetBounds(end.queue.items, end.retries, limit, None);
    BudgetBounds(Started(q).queue.items, map[], limit, None);
    AddCosts(limit, |q.items|, Added(steps));
  }

  lemma OrderlyStepIsPaid(s: System, limit: nat, step: Step)
    requires LoadedLeads(s) && InOrder(step) && Spends(s, step)
    ensures Paid(s, limit, step)
  {
    if !step.Reconcile? {
      LeaderHasStatus(s.queue.items, s.loaded.value, Current);
      var i :| 0 <= i < |s.queue.items| && s.queue.items[i].id == s.loaded.value && s.queue.items[i].status == Current;
      assert Playable(s.queue.items[i]);
    }
  }

  /** Without reordering, and with a working database, every spending step is paid for. */
  lemma {:induction false} OrderlyRunIsPaid(s: System, limit: nat, steps: seq<Step>)
    requires SystemInv(s, limit) && LoadedLeads(s)
    requires forall i :: 0 <= i < |steps| ==> InOrder(steps[i])
    ensures PaidRun(s, limit, steps)
    decreases |steps|
  {
    if |steps| > 0 {
      if Spends(s, steps[0]) {
        OrderlyStepIsPaid(s, limit, steps[0]);
      }
      StepKeepsLoadedLeads(s, limit, steps[0]);
      StepKeepsInv(s, limit, steps[0]);
      OrderlyRunIsPaid(Advance(s, limit, steps[0]), limit, steps[1..]);
    }
  }

  /** So the queue drains in every run of a process that reorders nothing. */
  lemma QueueDrains(q: QueueState, limit: nat, steps: seq<Step>)
    requires Inv(q)
    requires forall i :: 0 <= i < |steps| ==> InOrder(steps[i])
    ensures Spent(Started(q), limit, steps) <= (limit + 1) * (|q.items| + Added(steps))
  {
    TransactionKeepsInv(q, Recover);
    OrderlyRunIsPaid(Started(q), limit, steps);
    PaidRunsDrain(q, limit, steps);
  }

  // ----- with reordering -----

  /**
   In any reachable state, reordered or not: the end of a loaded item still in
   the queue lowers the budget exactly if it is stored and finds the row still
   current; if not, the budget rises by the retries that are forgotten.
   */
  lemma EndSpendsExactly(s: System, limit: nat, title: string, saved: bool, k: nat)
    requires SystemInv(s, limit) && k < |s.queue.items|
    requires s.loaded == Some(s.queue.items[k].id)
    ensures Paid(s, limit, Ended(title, saved)) <==> saved && s.queue.items[k].status == Current
    ensures Left(AfterEnd(s, saved), limit) == Left(s, limit) + Attempts(s.retries, s.queue.items[k].id)
              - if Paid(s, limit, Ended(title, saved)) then limit + 1 else 0
    ensures Left(AfterEnd(s, saved), limit) < Left(s, limit) <==> Paid(s, limit, Ended(title, saved))
  {
    var items, id := s.queue.items, s.queue.items[k].id;
    var retries := s.retries - {id};
    SplitOff(items, k, s.retries, limit);
    SplitOff(items, k, retries, limit);
    BudgetSame(items, items, s.retries, retries, limit, Some(id));
    if saved && items[k].status == Current {
      FinishSpends(s.queue, id, None, retries, limit);
    }
  }

  /** The same for a failure, which is also paid for if a retry is left. */
  lemma FailureSpendsExactly(s: System, limit: nat, now: int, title: string, message: string, saved: bool, k: nat)
    requires SystemInv(s, limit) && k < |s.queue.items|
    requires s.loaded == Some(s.queue.items[k].id)
    ensures
      var paid := Paid(s, limit, Step.Failed(now, title, message, saved));
      var attempts := Attempts(s.retries, s.queue.items[k].id);
      && (paid <==> attempts < limit || (saved && s.queue.items[k].status == Current))
      && Left(AfterFailure(s, limit, now, message, saved), limit) == Left(s, limit)
           + (if attempts < limit then -1 else if paid then attempts - limit - 1 else attempts)
      && (paid <==> Left(AfterFailure(s, limit, now, message, saved), limit) < Left(s, limit))
  {
    var items, id := s.queue.items, s.queue.items[k].id;
    SplitOff(items, k, s.retries, limit);
    if Attempts(s.retries, id) < limit {
      RetrySpends(s.queue, id, message, saved, s.retries, limit);
    } else {
      var retries := s.retries - {id};
      SplitOff(items, k, retries, limit);
      BudgetSame(items, items, s.retries, retries, limit, Some(id));
      if saved && items[k].status == Current {
        FinishSpends(s.queue, id, Some(message), retries, limit);
      }
    }
  }

  /**
   An item that breaks lowers the budget that was left when it was given up,
   whatever clients did until then, exactly if its failure is stored and its row
   is still there.  If they did nothing, it lowers the budget exactly if its
   failure is stored.
   */
  lemma BreakSpendsExactly(s: System, limit: nat, a: Attempt)
    requires SystemInv(s, limit) && Possible(Reconcile(a)) && Breaks(s, a)
    ensures var q, id := GivenUp(s, a), ChosenId(s, a);
      Left(Reconciled(s, a), limit) < Budget(q.items, s.retries, limit, None) <==> a.saved && HasId(q.items, id)
    ensures a.torn == [] && a.before == [] && a.during == [] ==>
      (Left(Reconciled(s, a), limit) < Left(s, limit) <==> a.saved)
  {
    var q, id := GivenUp(s, a), ChosenId(s, a);
    GivenUpIsCurrent(s, limit, a);
    BreakResult(s, a);
    if a.torn == [] && a.before == [] && a.during == [] {
      UndisturbedChoice(s, limit, a);
    }
    hide GivenUp, ChosenId, Breaks, Apply, Possible;
    FinishSpends(q, id, Some(BreakMessage(a)), s.retries, limit);
    if HasId(q.items, id) {
      InvDistinct(q);
      LeaderHasAllowance(q.items, id, s.retries, limit);
    } else {
      SameBut(q.items, s.retries, limit, id);
    }
  }

  /** Without client edits, an item that breaks is still there when it is given up, with the budget as it was. */
  lemma UndisturbedChoice(s: System, limit: nat, a: Attempt)
    requires SystemInv(s, limit) && Breaks(s, a) && a.torn == [] && a.before == [] && a.during == []
    ensures HasId(GivenUp(s, a).items, ChosenId(s, a))
    ensures Budget(GivenUp(s, a).items, s.retries, limit, None) == Left(s, limit)
  {
    ChoosingKeepsPlayable(s.queue, ChosenId(s, a));
    hide Inv, MadeCurrent, Transact, DistinctItems;
    SamePlayableBudget(GivenUp(s, a).items, s.queue.items, s.retries, limit, None);
  }
}
