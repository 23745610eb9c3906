/**
 Least recently selected rotation.  A turn goes to an active user whose last
 turn is oldest, ties being broken at random; users who never had a turn come
 first.  Turn times come from a strictly increasing clock.
 */
module Rotation {
  import Positions

  type User = string

  type Turns = map<User, nat>

  function LastTurn(turns: Turns, u: User): int {
    if u in turns then turns[u] else -1
  }

  /** `u` may be given the next turn. */
  predicate Fair(turns: Turns, active: seq<User>, u: User) {
    u in active && forall v :: v in active ==> LastTurn(turns, u) <= LastTurn(turns, v)
  }

  /** A turn is successful if an item was added for the user, who may also just have been passed over. */
  datatype Turn = Turn(active: seq<User>, chosen: User, at: nat, successful: bool)

  function AfterTurns(turns: Turns, run: seq<Turn>): Turns
    decreases |run|
  {
    if |run| == 0 then turns else AfterTurns(turns[run[0].chosen := run[0].at], run[1..])
  }

  function Clock(clock: nat, run: seq<Turn>): nat {
    if |run| == 0 then clock else run[|run| - 1].at
  }

  /** Turns given fairly one after the other, at increasing times. */
  predicate FairRun(turns: Turns, clock: nat, run: seq<Turn>)
    decreases |run|
  {
    |run| > 0 ==>
      && clock < run[0].at
      && Fair(turns, run[0].active, run[0].chosen)
      && FairRun(turns[run[0].chosen := run[0].at], run[0].at, run[1..])
  }

  predicate NoLaterThan(turns: Turns, clock: nat) {
    forall u :: u in turns ==> turns[u] <= clock
  }

  function Count(run: seq<Turn>, u: User): nat {
    if |run| == 0 then 0 else (if run[0].chosen == u then 1 else 0) + Count(run[1..], u)
  }

  predicate AlwaysActive(run: seq<Turn>, u: User) {
    forall i :: 0 <= i < |run| ==> u in run[i].active
  }

  lemma {:induction false} FairRunConcat(turns: Turns, clock: nat, a: seq<Turn>, b: seq<Turn>)
    ensures FairRun(turns, clock, a + b) <==>
      FairRun(turns, clock, a) && FairRun(AfterTurns(turns, a), Clock(clock, a), b)
    ensures AfterTurns(turns, a + b) == AfterTurns(AfterTurns(turns, a), b)
    decreases |a|
  {
    if |a| == 0 {
      assert a + b == b;
    } else {
      assert (a + b)[1..] == a[1..] + b;
      FairRunConcat(turns[a[0].chosen := a[0].at], a[0].at, a[1..], b);
      assert Clock(a[0].at, a[1..]) == Clock(clock, a);
    }
  }

  lemma {:induction false} RunStaysBounded(turns: Turns, clock: nat, run: seq<Turn>)
    requires NoLaterThan(turns, clock) && FairRun(turns, clock, run)
    ensures NoLaterThan(AfterTurns(turns, run), Clock(clock, run)) && clock <= Clock(clock, run)
    decreases |run|
  {
    if |run| > 0 {
      RunStaysBounded(turns[run[0].chosen := run[0].at], run[0].at, run[1..]);
      assert Clock(run[0].at, run[1..]) == Clock(clock, run);
    }
  }

  /** The user who has waited longer gets as many turns or one more, never less. */
  lemma {:induction false} LongerWaitGoesFirst(turns: Turns, clock: nat, run: seq<Turn>, u: User, v: User)
    requires u != v && NoLaterThan(turns, clock) && FairRun(turns, clock, run)
    requires AlwaysActive(run, u) && AlwaysActive(run, v)
    ensures LastTurn(turns, u) < LastTurn(turns, v) ==> 0 <= Count(run, u) - Count(run, v) <= 1
    ensures LastTurn(turns, v) < LastTurn(turns, u) ==> 0 <= Count(run, v) - Count(run, u) <= 1
    ensures -1 <= Count(run, u) - Count(run, v) <= 1
    decreases |run|
  {
    if |run| > 0 {
      assert u in run[0].active && v in run[0].active;
      assert forall i :: 0 <= i < |run[1..]| ==> run[1..][i] == run[i + 1];
      LongerWaitGoesFirst(turns[run[0].chosen := run[0].at], run[0].at, run[1..], u, v);
    }
  }

  /**
   Over every interval of a run in which two users stay active, whoever else
   comes and goes, their numbers of turns differ by at most one.
   */
  lemma TurnsDifferByAtMostOne(turns: Turns, clock: nat, run: seq<Turn>, from: nat, to: nat, u: User, v: User)
    requires NoLaterThan(turns, clock) && FairRun(turns, clock, run) && from <= to <= |run|
    requires AlwaysActive(run[from..to], u) && AlwaysActive(run[from..to], v)
    ensures -1 <= Count(run[from..to], u) - Count(run[from..to], v) <= 1
  {
    IntervalIsFair(turns, clock, run, from, to);
    if u != v {
      LongerWaitGoesFirst(AfterTurns(turns, run[..from]), Clock(clock, run[..from]), run[from..to], u, v);
    }
  }

  lemma IntervalIsFair(turns: Turns, clock: nat, run: seq<Turn>, from: nat, to: nat)
    requires NoLaterThan(turns, clock) && FairRun(turns, clock, run) && from <= to <= |run|
    ensures FairRun(AfterTurns(turns, run[..from]), Clock(clock, run[..from]), run[from..to])
    ensures NoLaterThan(AfterTurns(turns, run[..from]), Clock(clock, run[..from]))
  {
    assert run == run[..from] + run[from..];
    FairRunConcat(turns, clock, run[..from], run[from..]);
    RunStaysBounded(turns, clock, run[..from]);
    assert run[from..] == run[from..to] + run[to..];
    FairRunConcat(AfterTurns(turns, run[..from]), Clock(clock, run[..from]), run[from..to], run[to..]);
  }

  lemma {:induction false} CountConcat(a: seq<Turn>, b: seq<Turn>, u: User)
    ensures Count(a + b, u) == Count(a, u) + Count(b, u)
    decreases |a|
  {
    if |a| == 0 {
      assert a + b == b;
    } else {
      assert (a + b)[1..] == a[1..] + b;
      CountConcat(a[1..], b, u);
    }
  }

  lemma {:induction false} CountedIsChosen(run: seq<Turn>, u: User)
    ensures Count(run, u) > 0 <==> exists i :: 0 <= i < |run| && run[i].chosen == u
    decreases |run|
  {
    if |run| > 0 {
      CountedIsChosen(run[1..], u);
      if i :| 0 <= i < |run[1..]| && run[1..][i].chosen == u {
        assert run[i + 1].chosen == u;
      }
      if i :| 0 <= i < |run| && run[i].chosen == u {
        assert i > 0 ==> run[1..][i - 1].chosen == u;
      }
    }
  }

  lemma CountOfOne(t: Turn, u: User)
    ensures Count([t], u) == if t.chosen == u then 1 else 0
  {
  }

  /** Between two turns of one user every other user active throughout gets a turn. */
  lemma EveryoneInBetween(turns: Turns, clock: nat, run: seq<Turn>, i: nat, j: nat, v: User)
    requires NoLaterThan(turns, clock) && FairRun(turns, clock, run) && i < j < |run|
    requires run[i].chosen == run[j].chosen && AlwaysActive(run[i..j + 1], v)
    requires AlwaysActive(run[i..j + 1], run[i].chosen) && v != run[i].chosen
    ensures exists k :: i < k < j && run[k].chosen == v
  {
    hide FairRun, NoLaterThan, Count;
    var u := run[i].chosen;
    var part := run[i..j + 1];
    TurnsDifferByAtMostOne(turns, clock, run, i, j + 1, u, v);
    var middle := run[i + 1..j];
    assert part == [run[i]] + middle + [run[j]];
    CountConcat([run[i]] + middle, [run[j]], u);
    CountConcat([run[i]], middle, u);
    CountConcat([run[i]] + middle, [run[j]], v);
    CountConcat([run[i]], middle, v);
    CountOfOne(run[i], u);
    CountOfOne(run[i], v);
    CountOfOne(run[j], u);
    CountOfOne(run[j], v);
    CountedIsChosen(middle, v);
    var k :| 0 <= k < |middle| && middle[k].chosen == v;
    assert run[i + 1 + k].chosen == v;
  }

  // ----- a fixed set of active users -----

  predicate SameActive(run: seq<Turn>, users: seq<User>) {
    forall i :: 0 <= i < |run| ==> run[i].active == users
  }

  function TotalCount(run: seq<Turn>, users: seq<User>): nat {
    if |users| == 0 then 0 else Count(run, users[0]) + TotalCount(run, users[1..])
  }

  lemma {:induction false} TotalOfTurn(t: Turn, run: seq<Turn>, users: seq<User>)
    requires Positions.Distinct(users)
    ensures TotalCount([t] + run, users) == TotalCount(run, users) + (if t.chosen in users then 1 else 0)
    decreases |users|
  {
    if |users| > 0 {
      TotalOfTurn(t, run, users[1..]);
      assert ([t] + run)[1..] == run;
      assert users == [users[0]] + users[1..];
    }
  }

  lemma {:induction false} TotalIsLength(run: seq<Turn>, users: seq<User>)
    requires Positions.Distinct(users) && forall i :: 0 <= i < |run| ==> run[i].chosen in users
    ensures TotalCount(run, users) == |run|
    decreases |run|
  {
    if |run| == 0 {
      NoTurnsNoTotal(users);
    } else {
      TotalIsLength(run[1..], users);
      TotalOfTurn(run[0], run[1..], users);
      assert run == [run[0]] + run[1..];
    }
  }

  lemma {:induction false} NoTurnsNoTotal(users: seq<User>)
    ensures TotalCount([], users) == 0
    decreases |users|
  {
    if |users| > 0 {
      NoTurnsNoTotal(users[1..]);
    }
  }

  lemma {:induction false} TotalAtMost(run: seq<Turn>, users: seq<User>)
    requires forall i :: 0 <= i < |users| ==> Count(run, users[i]) <= 1
    ensures TotalCount(run, users) <= |users|
    decreases |users|
  {
    if |users| > 0 {
      TotalAtMost(run, users[1..]);
    }
  }

  lemma {:induction false} TotalAtLeast(run: seq<Turn>, users: seq<User>)
    requires forall i :: 0 <= i < |users| ==> Count(run, users[i]) >= 1
    ensures TotalCount(run, users) >= |users|
    decreases |users|
  {
    if |users| > 0 {
      TotalAtLeast(run, users[1..]);
    }
  }

  lemma {:induction false} TotalSplit(run: seq<Turn>, users: seq<User>, k: nat)
    requires k < |users|
    ensures TotalCount(run, users) == Count(run, users[k]) + TotalCount(run, users[..k] + users[k + 1..])
    decreases k
  {
    var others := users[..k] + users[k + 1..];
    if k == 0 {
      assert others == users[1..];
    } else {
      TotalSplit(run, users[1..], k - 1);
      assert others[1..] == users[1..][..k - 1] + users[1..][k..];
    }
  }

  /** With n active users, every n consecutive turns give each of them exactly one turn. */
  lemma OneTurnEach(turns: Turns, clock: nat, run: seq<Turn>, users: seq<User>, k: nat)
    requires NoLaterThan(turns, clock) && FairRun(turns, clock, run)
    requires Positions.Distinct(users) && SameActive(run, users) && |run| == |users| && k < |users|
    ensures Count(run, users[k]) == 1
  {
    ChosenAreActive(turns, clock, run);
    TotalIsLength(run, users);
    TotalSplit(run, users, k);
    var others := users[..k] + users[k + 1..];
    var c := Count(run, users[k]);
    forall i | 0 <= i < |others| ensures c - 1 <= Count(run, others[i]) <= c + 1 {
      assert others[i] in users;
      TurnsDifferByAtMostOne(turns, clock, run, 0, |run|, users[k], others[i]);
      assert run[0..|run|] == run;
    }
    if c == 0 {
      TotalAtMost(run, others);
    } else if c > 1 {
      TotalAtLeast(run, others);
    }
  }

  lemma {:induction false} ChosenAreActive(turns: Turns, clock: nat, run: seq<Turn>)
    requires FairRun(turns, clock, run)
    ensures forall i :: 0 <= i < |run| ==> run[i].chosen in run[i].active
    decreases |run|
  {
    if |run| > 0 {
      ChosenAreActive(turns[run[0].chosen := run[0].at], run[0].at, run[1..]);
      forall i | 0 <= i < |run| ensures run[i].chosen in run[i].active {
        if i > 0 { assert run[1..][i - 1] == run[i]; }
      }
    }
  }

  lemma OneTurnEachFrom(turns: Turns, clock: nat, run: seq<Turn>, users: seq<User>, from: nat, k: nat)
    requires NoLaterThan(turns, clock) && FairRun(turns, clock, run)
    requires Positions.Distinct(users) && SameActive(run, users) && from + |users| <= |run| && k < |users|
    ensures Count(run[from..from + |users|], users[k]) == 1
  {
    hide FairRun, NoLaterThan, Count, Positions.Distinct, AfterTurns;
    IntervalIsFair(turns, clock, run, from, from + |users|);
    OneTurnEach(AfterTurns(turns, run[..from]), Clock(clock, run[..from]), run[from..from + |users|], users, k);
  }

  /** So with n active users the rotation repeats with period n, however ties fell at first. */
  lemma RotationIsPeriodic(turns: Turns, clock: nat, run: seq<Turn>, users: seq<User>, i: nat)
    requires NoLaterThan(turns, clock) && FairRun(turns, clock, run)
    requires Positions.Distinct(users) && SameActive(run, users) && i + |users| < |run|
    ensures run[i + |users|].chosen == run[i].chosen
  {
    hide FairRun, NoLaterThan, Count, Positions.Distinct;
    ChosenAreActive(turns, clock, run);
    var u := run[i].chosen;
    var k :| 0 <= k < |users| && users[k] == u;
    OneTurnEachFrom(turns, clock, run, users, i, k);
    OneTurnEachFrom(turns, clock, run, users, i + 1, k);
    SlidingCount(run, i, |users|, u);
  }

  lemma SlidingCount(run: seq<Turn>, i: nat, n: nat, u: User)
    requires n > 0 && i + n < |run| && run[i].chosen == u
    requires Count(run[i..i + n], u) == Count(run[i + 1..i + n + 1], u)
    ensures run[i + n].chosen == u
  {
    var middle := run[i + 1..i + n];
    assert run[i..i + n] == [run[i]] + middle;
    assert run[i + 1..i + n + 1] == middle + [run[i + n]];
    CountConcat([run[i]], middle, u);
    CountConcat(middle, [run[i + n]], u);
  }

  // ----- successful turns -----

  /** The time of the last turn of `u` in the run, or -1. */
  function LastIn(run: seq<Turn>, u: User): int {
    if |run| == 0 then -1
    else if run[|run| - 1].chosen == u then run[|run| - 1].at
    else LastIn(run[..|run| - 1], u)
  }

  /** The time of the last successful turn, or -1. */
  function LastSuccess(run: seq<Turn>, u: User): int {
    if |run| == 0 then -1
    else if run[|run| - 1].chosen == u && run[|run| - 1].successful then run[|run| - 1].at
    else LastSuccess(run[..|run| - 1], u)
  }

  /** The choice by last successful turn, as opposed to last turn. */
  predicate FairBySuccess(run: seq<Turn>, active: seq<User>, u: User) {
    u in active && forall v :: v in active ==> LastSuccess(run, u) <= LastSuccess(run, v)
  }

  /** `u` was passed over after the last turn of `v`. */
  predicate PassedAfter(run: seq<Turn>, u: User, v: User) {
    exists i :: 0 <= i < |run| && run[i].chosen == u && !run[i].successful && run[i].at > LastIn(run, v)
  }

  predicate Increasing(run: seq<Turn>) {
    forall i, j :: 0 <= i < j < |run| ==> run[i].at < run[j].at
  }

  lemma {:induction false} FairRunIncreases(turns: Turns, clock: nat, run: seq<Turn>)
    requires FairRun(turns, clock, run)
    ensures Increasing(run) && forall i :: 0 <= i < |run| ==> clock < run[i].at
    decreases |run|
  {
    if |run| > 0 {
      FairRunIncreases(turns[run[0].chosen := run[0].at], run[0].at, run[1..]);
      assert forall i :: 1 <= i < |run| ==> run[i] == run[1..][i - 1];
    }
  }

  lemma {:induction false} LastTurnIn(turns: Turns, run: seq<Turn>, u: User)
    ensures LastTurn(AfterTurns(turns, run), u) == if LastIn(run, u) == -1 then LastTurn(turns, u) else LastIn(run, u)
    decreases |run|
  {
    if |run| > 0 {
      var front, last := run[..|run| - 1], run[|run| - 1];
      LastTurnIn(turns, front, u);
      FairRunConcat(turns, 0, front, [last]);
      assert run == front + [last];
      assert AfterTurns(AfterTurns(turns, front), [last]) == AfterTurns(turns, front)[last.chosen := last.at];
    }
  }

  /** The last turn of a user comes after all others, and is the last successful one if it was successful. */
  lemma {:induction false} LastInRun(run: seq<Turn>, u: User)
    requires Increasing(run)
    ensures -1 <= LastSuccess(run, u) <= LastIn(run, u)
    ensures forall i :: 0 <= i < |run| && run[i].chosen == u ==> run[i].at <= LastIn(run, u)
    ensures LastIn(run, u) >= 0 ==> exists i :: 0 <= i < |run| && run[i].chosen == u && run[i].at == LastIn(run, u)
                                        && (run[i].successful ==> LastSuccess(run, u) == LastIn(run, u))
    decreases |run|
  {
    if |run| > 0 {
      var front := run[..|run| - 1];
      LastInRun(front, u);
      if run[|run| - 1].chosen != u && LastIn(run, u) >= 0 {
        var i :| 0 <= i < |front| && front[i].chosen == u && front[i].at == LastIn(front, u)
          && (front[i].successful ==> LastSuccess(front, u) == LastIn(front, u));
        assert run[i] == front[i];
      }
    }
  }

  lemma LastTurnAt(run: seq<Turn>, u: User) returns (i: nat)
    requires Increasing(run) && LastIn(run, u) >= 0
    ensures i < |run| && run[i].chosen == u && run[i].at == LastIn(run, u)
    ensures run[i].successful ==> LastSuccess(run, u) == LastIn(run, u)
  {
    LastInRun(run, u);
    i :| 0 <= i < |run| && run[i].chosen == u && run[i].at == LastIn(run, u)
      && (run[i].successful ==> LastSuccess(run, u) == LastIn(run, u));
  }

  lemma {:induction false} SomebodyWaitsLongest(run: seq<Turn>, active: seq<User>)
    requires |active| > 0
    ensures exists u :: FairBySuccess(run, active, u)
    decreases |active|
  {
    var first := active[0];
    if |active| == 1 {
      assert FairBySuccess(run, active, first);
    } else {
      SomebodyWaitsLongest(run, active[1..]);
      var u :| FairBySuccess(run, active[1..], u);
      assert active == [first] + active[1..];
      assert FairBySuccess(run, active, if LastSuccess(run, first) <= LastSuccess(run, u) then first else u);
    }
  }

  /** If nobody who waits longest for a success was passed over after another's last turn, that user is chosen. */
  lemma LongestWaitIsChosen(run: seq<Turn>, active: seq<User>, u: User)
    requires FairRun(map[], 0, run) && FairBySuccess(run, active, u)
    requires forall v :: v in active ==> !PassedAfter(run, u, v)
    ensures Fair(AfterTurns(map[], run), active, u)
  {
    FairRunIncreases(map[], 0, run);
    LastTurnIn(map[], run, u);
    LastInRun(run, u);
    forall v | v in active ensures LastTurn(AfterTurns(map[], run), u) <= LastTurn(AfterTurns(map[], run), v) {
      LastTurnIn(map[], run, v);
      LastInRun(run, v);
      assert !PassedAfter(run, u, v);
      if LastIn(run, u) >= 0 {
        var i := LastTurnAt(run, u);
      }
    }
  }

  /** Two users with the same last turn never had one. */
  lemma SameLastTurn(run: seq<Turn>, u: User, v: User)
    requires Increasing(run) && LastIn(run, u) == LastIn(run, v) && u != v
    ensures LastIn(run, u) == -1
  {
    LastInRun(run, u);
    LastInRun(run, v);
    if LastIn(run, u) >= 0 {
      var i := LastTurnAt(run, u);
      var j := LastTurnAt(run, v);
    }
  }

  /**
   Choosing by last turn and choosing by last successful turn pick from the same
   users exactly if none of those who wait longest for a success was passed over
   after the last turn of another active user.
   */
  lemma ChoicesAgreeExactly(run: seq<Turn>, active: seq<User>)
    requires FairRun(map[], 0, run) && |active| > 0
    ensures (forall u :: Fair(AfterTurns(map[], run), active, u) <==> FairBySuccess(run, active, u))
      <==> forall u, v :: FairBySuccess(run, active, u) && v in active ==> !PassedAfter(run, u, v)
  {
    var turns := AfterTurns(map[], run);
    FairRunIncreases(map[], 0, run);
    if forall u, v :: FairBySuccess(run, active, u) && v in active ==> !PassedAfter(run, u, v) {
      SomebodyWaitsLongest(run, active);
      var longest :| FairBySuccess(run, active, longest);
      LongestWaitIsChosen(run, active, longest);
      forall u ensures Fair(turns, active, u) <==> FairBySuccess(run, active, u) {
        if FairBySuccess(run, active, u) {
          LongestWaitIsChosen(run, active, u);
        }
        if Fair(turns, active, u) && u != longest {
          NeverHadATurn(run, active, u, longest);
        }
      }
    } else {
      var u, v :| FairBySuccess(run, active, u) && v in active && PassedAfter(run, u, v);
      PassedIsNotChosen(run, active, u, v);
    }
  }

  lemma NeverHadATurn(run: seq<Turn>, active: seq<User>, u: User, longest: User)
    requires FairRun(map[], 0, run) && u != longest && FairBySuccess(run, active, longest)
    requires Fair(AfterTurns(map[], run), active, u) && Fair(AfterTurns(map[], run), active, longest)
    ensures FairBySuccess(run, active, u)
  {
    FairRunIncreases(map[], 0, run);
    LastTurnIn(map[], run, u);
    LastTurnIn(map[], run, longest);
    SameLastTurn(run, u, longest);
    LastInRun(run, u);
    LastInRun(run, longest);
  }

  lemma PassedIsNotChosen(run: seq<Turn>, active: seq<User>, u: User, v: User)
    requires FairRun(map[], 0, run) && v in active && PassedAfter(run, u, v)
    ensures !Fair(AfterTurns(map[], run), active, u)
  {
    FairRunIncreases(map[], 0, run);
    LastTurnIn(map[], run, u);
    LastTurnIn(map[], run, v);
    LastInRun(run, u);
    LastInRun(run, v);
  }

  const TWO_USERS := ["a", "b"]

  const PASSED_OVER := [Turn(TWO_USERS, "b", 1, true), Turn(TWO_USERS, "a", 2, false)]

  /** A user passed over once loses to one with a more recent successful turn, here in fact the only one. */
  lemma PassedOverLoses()
    ensures FairRun(map[], 0, PASSED_OVER)
    ensures Fair(AfterTurns(map[], PASSED_OVER), TWO_USERS, "b")
    ensures !Fair(AfterTurns(map[], PASSED_OVER), TWO_USERS, "a")
    ensures LastSuccess(PASSED_OVER, "a") < LastSuccess(PASSED_OVER, "b")
  {
    var turns: Turns := map["b" := 1, "a" := 2];
    assert PASSED_OVER[1..] == [Turn(TWO_USERS, "a", 2, false)];
    assert PASSED_OVER[..1] == [Turn(TWO_USERS, "b", 1, true)];
    assert AfterTurns(map["b" := 1], PASSED_OVER[1..]) == turns;
    assert "a" == TWO_USERS[0] && "b" == TWO_USERS[1];
    assert Fair(map[], TWO_USERS, "b") && Fair(map["b" := 1], TWO_USERS, "a");
    assert FairRun(map["b" := 1], 1, PASSED_OVER[1..]);
    assert LastTurn(turns, "b") == 1 && LastTurn(turns, "a") == 2;
    assert PASSED_OVER[..1][..0] == [];
    assert LastSuccess(PASSED_OVER, "b") == LastSuccess(PASSED_OVER[..1], "b") == 1;
    assert LastSuccess(PASSED_OVER, "a") == LastSuccess(PASSED_OVER[..1], "a");
    assert LastSuccess(PASSED_OVER[..1], "a") == LastSuccess(PASSED_OVER[..1][..0], "a") == -1;
  }
}
