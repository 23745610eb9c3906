/**
 Votes to skip or remove.  The manager keeps only what has not expired when it
 last looked; its answers are those of the full, never pruned log of touches,
 votes, withdrawals and clears.
 */
module Voting {
  import Positions
  import opened Wrappers

  type Listener = string
  type Key = string

  /** Times are those of a non-decreasing clock. */
  datatype Policy = Policy(enabled: bool, activeWindow: int, timeout: int, percent: int)

  predicate ValidPolicy(p: Policy) {
    p.activeWindow >= 0 && p.timeout >= 0 && 1 <= p.percent <= 100
  }

  datatype VoteState = VoteState(enabled: bool, item: string, votes: nat, required: int, activeListeners: nat,
                                 voted: bool, expiresAt: Option<int>)

  // ----- the log -----

  datatype Event =
    | Touched(listener: Listener, at: int)
    | Cast(key: Key, listener: Listener, at: int)
    | Withdrawn(key: Key, listener: Listener, at: int)
    | Cleared(key: Key, at: int)

  function LastTouch(log: seq<Event>, id: Listener): Option<int> {
    if |log| == 0 then None
    else
      var e := log[|log| - 1];
      if e.Touched? && e.listener == id then Some(e.at) else LastTouch(log[..|log| - 1], id)
  }

  /** The time of the vote of `id` that still stands, expiry aside. */
  function StandingVote(log: seq<Event>, key: Key, id: Listener): Option<int> {
    if |log| == 0 then None
    else
      var e := log[|log| - 1];
      match e
      case Cast(k, l, at) => if k == key && l == id then Some(at) else StandingVote(log[..|log| - 1], key, id)
      case Withdrawn(k, l, _) => if k == key && l == id then None else StandingVote(log[..|log| - 1], key, id)
      case Cleared(k, _) => if k == key then None else StandingVote(log[..|log| - 1], key, id)
      case Touched(_, _) => StandingVote(log[..|log| - 1], key, id)
  }

  function Listeners(log: seq<Event>): set<Listener> {
    set i | 0 <= i < |log| && !log[i].Cleared? :: log[i].listener
  }

  predicate Unexpired(at: Option<int>, now: int, lifetime: int) {
    at.Some? && now - at.value <= lifetime
  }

  function ActiveSet(p: Policy, log: seq<Event>, now: int): set<Listener> {
    set id | id in Listeners(log) && Unexpired(LastTouch(log, id), now, p.activeWindow)
  }

  function Voters(p: Policy, log: seq<Event>, key: Key, now: int): set<Listener> {
    set id | id in Listeners(log) && Unexpired(StandingVote(log, key, id), now, p.timeout)
  }

  /** The quorum: percent of the active listeners, rounded up, at least one. */
  function Required(active: int, percent: int): int {
    var r := (active * percent + 99) / 100;
    if r < 1 then 1 else r
  }

  /** The answer for given active listeners and voters. */
  ghost predicate Answers(p: Policy, active: set<Listener>, voters: set<Listener>, log: seq<Event>, key: Key,
                          listener: Listener, now: int, r: VoteState)
  {
    && r.activeListeners == (if |active| < 1 then 1 else |active|)
    && r.required == Required(r.activeListeners, p.percent)
    && r.votes == |voters|
    && r.voted == (listener in voters)
    && (r.expiresAt.Some? <==> voters != {})
    && (r.expiresAt.Some? ==>
          && r.expiresAt.value <= now + p.timeout
          && (forall id :: id in voters && StandingVote(log, key, id).Some? ==>
                r.expiresAt.value <= StandingVote(log, key, id).value + p.timeout)
          && (r.expiresAt.value == now + p.timeout
              || exists id :: id in voters && StandingVote(log, key, id) == Some(r.expiresAt.value - p.timeout)))
  }

  /** What a query must answer, by the full log; the oldest vote decides the expiry. */
  ghost predicate Reports(p: Policy, log: seq<Event>, key: Key, item: string, listener: Listener, now: int,
                          r: VoteState)
  {
    r.enabled == p.enabled && r.item == item &&
    if !p.enabled || item == "" then r == VoteState(p.enabled, item, 0, 0, 0, false, None)
    else
      var voters := Voters(p, log, key, now);
      && Answers(p, ActiveSet(p, log, now), voters, log, key, listener, now, r)
      && (r.expiresAt.Some? ==>
            exists id :: id in voters && StandingVote(log, key, id) == Some(r.expiresAt.value - p.timeout))
  }

  /**
   What a query must answer whose time `now` may be earlier than the latest time `clock` in the log: it reads
   the time before it gets the lock.  What expired between the two may be missing from the answer or not.
   */
  ghost predicate Within(p: Policy, log: seq<Event>, clock: int, key: Key, item: string, listener: Listener, now: int,
                         r: VoteState)
  {
    r.enabled == p.enabled && r.item == item &&
    if !p.enabled || item == "" then r == VoteState(p.enabled, item, 0, 0, 0, false, None)
    else exists active, voters ::
      && ActiveSet(p, log, clock) <= active <= ActiveSet(p, log, now)
      && Voters(p, log, key, clock) <= voters <= Voters(p, log, key, now)
      && Answers(p, active, voters, log, key, listener, now, r)
  }

  /** If nothing in the log is later than the query, its answer is that of the log. */
  lemma WithinIsExact(p: Policy, log: seq<Event>, key: Key, item: string, listener: Listener, now: int, r: VoteState)
    requires Within(p, log, now, key, item, listener, now, r)
    requires forall id :: id in Voters(p, log, key, now) ==> StandingVote(log, key, id).value <= now
    ensures Reports(p, log, key, item, listener, now, r)
  {
    if p.enabled && item != "" {
      var active, voters :|
        && ActiveSet(p, log, now) <= active <= ActiveSet(p, log, now)
        && Voters(p, log, key, now) <= voters <= Voters(p, log, key, now)
        && Answers(p, active, voters, log, key, listener, now, r);
      assert active == ActiveSet(p, log, now) && voters == Voters(p, log, key, now);
      if r.expiresAt.Some? && r.expiresAt.value == now + p.timeout {
        var id :| id in voters;
        assert StandingVote(log, key, id) == Some(now);
      }
    }
  }

  function Later(a: int, b: int): int {
    if a < b then b else a
  }

  // ----- the kept maps against the log -----

  /** `m` keeps the times given by `log`, except some that were expired at `now` already. */
  ghost predicate KeepsTouches(m: map<Listener, int>, log: seq<Event>, now: int, window: int) {
    && (forall id :: id in m ==> LastTouch(log, id) == Some(m[id]))
    && (forall id :: LastTouch(log, id).Some? && id !in m ==> !Unexpired(LastTouch(log, id), now, window))
  }

  ghost predicate KeepsVotes(m: map<Listener, int>, log: seq<Event>, key: Key, now: int, timeout: int) {
    && (forall id :: id in m ==> StandingVote(log, key, id) == Some(m[id]) && m[id] <= now)
    && (forall id :: StandingVote(log, key, id).Some? && id !in m ==>
          !Unexpired(StandingVote(log, key, id), now, timeout))
  }

  function VotesFor(votes: map<Key, map<Listener, int>>, key: Key): map<Listener, int> {
    if key in votes then votes[key] else map[]
  }

  function Pruned(m: map<Listener, int>, now: int, lifetime: int): map<Listener, int> {
    map id | id in m && now - m[id] <= lifetime :: m[id]
  }

  lemma {:induction false} TouchIsListener(log: seq<Event>, id: Listener)
    ensures LastTouch(log, id).Some? ==> id in Listeners(log)
    decreases |log|
  {
    if |log| > 0 {
      TouchIsListener(log[..|log| - 1], id);
      assert forall i :: 0 <= i < |log| - 1 ==> log[..|log| - 1][i] == log[i];
      assert log[|log| - 1] in log;
    }
  }

  lemma {:induction false} VoterIsListener(log: seq<Event>, key: Key, id: Listener)
    ensures StandingVote(log, key, id).Some? ==> id in Listeners(log)
    decreases |log|
  {
    if |log| > 0 {
      VoterIsListener(log[..|log| - 1], key, id);
      assert forall i :: 0 <= i < |log| - 1 ==> log[..|log| - 1][i] == log[i];
      assert log[|log| - 1] in log;
    }
  }

  /** After pruning exactly the active listeners of the log are left, but for those expired at a later clock. */
  lemma PrunedTouches(m: map<Listener, int>, log: seq<Event>, p: Policy, clock: int, now: int)
    requires KeepsTouches(m, log, clock, p.activeWindow)
    ensures var left := Pruned(m, now, p.activeWindow);
      && ActiveSet(p, log, Later(clock, now)) <= left.Keys <= ActiveSet(p, log, now)
      && KeepsTouches(left, log, Later(clock, now), p.activeWindow)
  {
    forall id ensures id in Pruned(m, now, p.activeWindow).Keys ==> id in ActiveSet(p, log, now) {
      TouchIsListener(log, id);
    }
  }

  lemma PrunedVotes(m: map<Listener, int>, log: seq<Event>, p: Policy, key: Key, clock: int, now: int)
    requires KeepsVotes(m, log, key, clock, p.timeout)
    ensures var left := Pruned(m, now, p.timeout);
      && Voters(p, log, key, Later(clock, now)) <= left.Keys <= Voters(p, log, key, now)
      && KeepsVotes(left, log, key, Later(clock, now), p.timeout)
  {
    forall id ensures id in Pruned(m, now, p.timeout).Keys ==> id in Voters(p, log, key, now) {
      VoterIsListener(log, key, id);
    }
  }

  /** One more vote event about `key` in the log and in the map kept for `key`. */
  function Marked(m: map<Listener, int>, e: Event): map<Listener, int> {
    match e
    case Cast(_, l, at) => m[l := at]
    case Withdrawn(_, l, _) => m - {l}
    case Cleared(_, _) => map[]
    case Touched(_, _) => m
  }

  predicate Concerns(e: Event, key: Key) {
    !e.Touched? && e.key == key
  }

  lemma MarkedVotes(m: map<Listener, int>, log: seq<Event>, e: Event, key: Key, clock: int, now: int, timeout: int)
    requires KeepsVotes(m, log, key, clock, timeout) && clock <= now && e.at <= now
    ensures KeepsVotes(if Concerns(e, key) then Marked(m, e) else m, log + [e], key, now, timeout)
  {
    assert (log + [e])[..|log|] == log;
    var m' := if Concerns(e, key) then Marked(m, e) else m;
    forall id ensures StandingVote(log + [e], key, id) ==
      if !Concerns(e, key) then StandingVote(log, key, id)
      else match e
        case Cast(_, l, at) => if l == id then Some(at) else StandingVote(log, key, id)
        case Withdrawn(_, l, _) => if l == id then None else StandingVote(log, key, id)
        case Cleared(_, _) => None
        case Touched(_, _) => StandingVote(log, key, id)
    {
      assert (log + [e])[|log|] == e;
    }
  }

  lemma TouchedMaps(m: map<Listener, int>, log: seq<Event>, e: Event, clock: int, now: int, window: int)
    requires KeepsTouches(m, log, clock, window) && clock <= now
    ensures KeepsTouches(if e.Touched? then m[e.listener := e.at] else m, log + [e], now, window)
  {
    assert (log + [e])[..|log|] == log;
    forall id ensures LastTouch(log + [e], id) ==
      if e.Touched? && e.listener == id then Some(e.at) else LastTouch(log, id)
    {
      assert (log + [e])[|log|] == e;
    }
  }

  method Prune(m: map<Listener, int>, now: int, lifetime: int) returns (r: map<Listener, int>)
    ensures r == Pruned(m, now, lifetime)
  {
    r := m;
    var remaining := m.Keys;
    while remaining != {}
      invariant remaining <= m.Keys
      invariant r.Keys == set id | id in m && (id in remaining || now - m[id] <= lifetime)
      invariant forall id :: id in r ==> r[id] == m[id]
      decreases remaining
    {
      var id :| id in remaining;
      if now - m[id] > lifetime {
        r := r - {id};
      }
      remaining := remaining - {id};
    }
  }

  /** The earliest standing vote decides when the count next falls. */
  method EarliestExpiry(standing: map<Listener, int>, now: int, timeout: int) returns (r: Option<int>)
    ensures r.Some? <==> standing != map[]
    ensures r.Some? ==> r.value <= now + timeout && forall id :: id in standing ==> r.value <= standing[id] + timeout
    ensures r.Some? ==> r.value == now + timeout || exists id :: id in standing && r.value == standing[id] + timeout
  {
    if |standing| == 0 {
      return None;
    }
    var earliest := now;
    var remaining := standing.Keys;
    while remaining != {}
      invariant remaining <= standing.Keys && earliest <= now
      invariant forall id :: id in standing && id !in remaining ==> earliest <= standing[id]
      invariant earliest == now || exists id :: id in standing && earliest == standing[id]
      decreases remaining
    {
      var id :| id in remaining;
      if standing[id] < earliest {
        earliest := standing[id];
      }
      remaining := remaining - {id};
    }
    r := Some(earliest + timeout);
  }

  /** The answer computed from pruned maps. */
  lemma AnswersHold(p: Policy, active: map<Listener, int>, standing: map<Listener, int>, log: seq<Event>, clock: int,
                    key: Key, listener: Listener, now: int, expires: Option<int>, r: VoteState)
    requires p.enabled && r.item != "" && now <= clock
    requires ActiveSet(p, log, clock) <= active.Keys <= ActiveSet(p, log, now)
    requires Voters(p, log, key, clock) <= standing.Keys <= Voters(p, log, key, now)
    requires KeepsVotes(standing, log, key, clock, p.timeout)
    requires expires.Some? <==> standing != map[]
    requires expires.Some? ==>
      expires.value <= now + p.timeout && forall id :: id in standing ==> expires.value <= standing[id] + p.timeout
    requires expires.Some? ==>
      expires.value == now + p.timeout || exists id :: id in standing && expires.value == standing[id] + p.timeout
    requires var listeners := if |active.Keys| < 1 then 1 else |active.Keys|;
      r == VoteState(true, r.item, |standing.Keys|, Required(listeners, p.percent), listeners, listener in standing,
                     expires)
    ensures Within(p, log, clock, key, r.item, listener, now, r)
    ensures clock == now ==> Reports(p, log, key, r.item, listener, now, r)
  {
    assert standing != map[] <==> standing.Keys != {};
    assert Answers(p, active.Keys, standing.Keys, log, key, listener, now, r);
    hide Answers, Reports;
    if clock == now {
      WithinIsExact(p, log, key, r.item, listener, now, r);
    }
  }

  // ----- the manager -----

  /** A call on the manager: an event, or a query. */
  datatype Call = Happens(e: Event) | Asks(key: Key, item: string, listener: Listener, at: int) {
    function At(): int {
      if Happens? then e.at else at
    }
  }

  function Events(calls: seq<Call>): seq<Event> {
    if |calls| == 0 then []
    else Events(calls[..|calls| - 1]) + if calls[|calls| - 1].Happens? then [calls[|calls| - 1].e] else []
  }

  /** Events read the time inside the lock, queries before they get it: only events are in the order of time. */
  predicate Sequential(calls: seq<Call>, from: int, to: int) {
    && (forall i :: 0 <= i < |calls| ==> calls[i].At() <= to && (calls[i].Happens? ==> from <= calls[i].At()))
    && (forall i, j :: 0 <= i < j < |calls| && calls[j].Happens? ==> calls[i].At() <= calls[j].At())
  }

  class VoteManager {
    const policy: Policy
    var active: map<Listener, int>
    var votes: map<Key, map<Listener, int>>
    ghost var log: seq<Event>
    ghost var clock: int

    ghost predicate Valid()
      reads this
    {
      && ValidPolicy(policy)
      && KeepsTouches(active, log, clock, policy.activeWindow)
      && (forall key :: KeepsVotes(VotesFor(votes, key), log, key, clock, policy.timeout))
    }

    constructor (policy: Policy, ghost now: int)
      requires ValidPolicy(policy)
      ensures Valid() && this.policy == policy && log == [] && clock == now
    {
      this.policy := policy;
      active, votes, log, clock := map[], map[], [], now;
    }

    /** One event happens: the maps kept afterwards still answer for the log. */
    ghost predicate Extends(active': map<Listener, int>, votes': map<Key, map<Listener, int>>, e: Event)
      reads this
    {
      && active' == (if e.Touched? then active[e.listener := e.at] else active)
      && forall key :: VotesFor(votes', key) ==
           if Concerns(e, key) then Marked(VotesFor(votes, key), e) else VotesFor(votes, key)
    }

    lemma ExtendKeeps(active': map<Listener, int>, votes': map<Key, map<Listener, int>>, e: Event, now: int)
      requires Valid() && clock <= now && e.at <= now && Extends(active', votes', e)
      ensures KeepsTouches(active', log + [e], now, policy.activeWindow)
      ensures forall key :: KeepsVotes(VotesFor(votes', key), log + [e], key, now, policy.timeout)
    {
      TouchedMaps(active, log, e, clock, now, policy.activeWindow);
      forall key ensures KeepsVotes(VotesFor(votes', key), log + [e], key, now, policy.timeout) {
        MarkedVotes(VotesFor(votes, key), log, e, key, clock, now, policy.timeout);
      }
    }

    method Touch(id: Listener, now: int)
      requires Valid() && clock <= now
      modifies this
      ensures Valid() && clock == now && log == old(log) + [Touched(id, now)]
    {
      ExtendKeeps(active[id := now], votes, Touched(id, now), now);
      active := active[id := now];
      log, clock := log + [Touched(id, now)], now;
    }

    /** The middle section of a vote. */
    method Mark(key: Key, listener: Listener, vote: bool, now: int)
      requires Valid() && clock <= now
      modifies this
      ensures Valid() && clock == now
      ensures log == old(log) + [if vote then Cast(key, listener, now) else Withdrawn(key, listener, now)]
    {
      hide KeepsVotes, KeepsTouches;
      ghost var e := if vote then Cast(key, listener, now) else Withdrawn(key, listener, now);
      ghost var m := Marked(VotesFor(votes, key), e);
      ExtendKeeps(active, votes[key := m], e, now);
      if key !in votes {
        votes := votes[key := map[]];
      }
      if vote {
        votes := votes[key := votes[key][listener := now]];
      } else {
        votes := votes[key := votes[key] - {listener}];
      }
      assert votes == old(votes)[key := m];
      log, clock := log + [e], now;
    }

    method Clear(key: Key, ghost now: int)
      requires Valid() && clock <= now
      modifies this
      ensures Valid() && clock == now && log == old(log) + [Cleared(key, now)]
    {
      ExtendKeeps(active, votes - {key}, Cleared(key, now), now);
      votes := votes - {key};
      log, clock := log + [Cleared(key, now)], now;
    }

    /** Prunes the votes on every key and forgets keys left without votes. */
    method PruneVotes(now: int)
      modifies this`votes
      ensures forall key :: VotesFor(votes, key) == Pruned(VotesFor(old(votes), key), now, policy.timeout)
    {
      ghost var all := votes;
      var remaining := votes.Keys;
      while remaining != {}
        invariant remaining <= votes.Keys <= all.Keys
        invariant forall key :: key in remaining ==> VotesFor(votes, key) == VotesFor(all, key)
        invariant forall key :: key !in remaining ==>
          VotesFor(votes, key) == Pruned(VotesFor(all, key), now, policy.timeout)
        decreases remaining
      {
        var key :| key in remaining;
        var kept := Prune(votes[key], now, policy.timeout);
        if |kept| == 0 {
          votes := votes - {key};
        } else {
          votes := votes[key := kept];
        }
        remaining := remaining - {key};
      }
    }

    /** Answers from the kept maps, after dropping what has expired from all of them; `now` was read before the lock. */
    method Query(key: Key, item: string, listener: Listener, now: int) returns (r: VoteState)
      requires Valid()
      modifies this
      ensures Valid() && log == old(log) && clock == Later(old(clock), now)
      ensures Within(policy, log, clock, key, item, listener, now, r)
      ensures old(clock) <= now ==> Reports(policy, log, key, item, listener, now, r)
    {
      if !policy.enabled || item == "" {
        clock := Later(clock, now);
        return VoteState(policy.enabled, item, 0, 0, 0, false, None);
      }
      hide Reports, Within, Answers;
      PrunedTouches(active, log, policy, clock, now);
      forall k ensures
        KeepsVotes(Pruned(VotesFor(votes, k), now, policy.timeout), log, k, Later(clock, now), policy.timeout)
      {
        PrunedVotes(VotesFor(votes, k), log, policy, k, clock, now);
      }
      var kept := Prune(active, now, policy.activeWindow);
      PruneVotes(now);
      active, clock := kept, Later(clock, now);
      var standing := VotesFor(votes, key);
      PrunedVotes(standing, log, policy, key, clock, now);
      standing := Prune(standing, now, policy.timeout);
      var listeners := if |active| < 1 then 1 else |active|;
      var expires := EarliestExpiry(standing, now, policy.timeout);
      assert |active| == |active.Keys| && |standing| == |standing.Keys|;
      r := VoteState(true, item, |standing|, Required(listeners, policy.percent), listeners, listener in standing,
                     expires);
      AnswersHold(policy, active, standing, log, clock, key, listener, now, expires, r);
    }

    /** Calls of other listeners. */
    method OtherCalls(calls: seq<Call>, ghost from: int, ghost to: int)
      requires Valid() && Sequential(calls, from, to) && clock <= from <= to
      modifies this
      ensures Valid() && old(clock) <= clock <= to && log == old(log) + Events(calls)
    {
      for i := 0 to |calls|
        invariant Valid() && old(clock) <= clock <= to && log == old(log) + Events(calls[..i])
        invariant forall j :: i <= j < |calls| && calls[j].Happens? ==> clock <= calls[j].At()
      {
        match calls[i] {
          case Happens(Touched(id, at)) => Touch(id, at);
          case Happens(Cast(key, id, at)) => Mark(key, id, true, at);
          case Happens(Withdrawn(key, id, at)) => Mark(key, id, false, at);
          case Happens(Cleared(key, at)) => Clear(key, at);
          case Asks(key, item, listener, at) => var r := Query(key, item, listener, at);
        }
        assert calls[..i + 1][..i] == calls[..i];
      }
      assert calls[..|calls|] == calls;
    }

    /**
     Touch, vote or withdraw, then query: three critical sections, other calls
     between them, the last of them until the time `to` at which the query gets
     the lock.
     */
    method SetVote(key: Key, item: string, listener: Listener, vote: bool, touchedAt: int, first: seq<Call>,
                   votedAt: int, second: seq<Call>, now: int, ghost to: int) returns (r: VoteState)
      requires Valid() && clock <= touchedAt <= votedAt <= now <= to
      requires Sequential(first, touchedAt, votedAt) && Sequential(second, votedAt, to)
      modifies this
      ensures Valid() && now <= clock <= to
      ensures log == old(log) + [Touched(listener, touchedAt)] + Events(first)
                     + [if vote then Cast(key, listener, votedAt) else Withdrawn(key, listener, votedAt)]
                     + Events(second)
      ensures Within(policy, log, clock, key, item, listener, now, r)
      ensures (forall i :: 0 <= i < |second| ==> second[i].At() <= now) ==>
        Reports(policy, log, key, item, listener, now, r)
    {
      hide Within, Reports;
      Touch(listener, touchedAt);
      OtherCalls(first, touchedAt, votedAt);
      Mark(key, listener, vote, votedAt);
      OtherCalls(second, votedAt, if forall i :: 0 <= i < |second| ==> second[i].At() <= now then now else to);
      r := Query(key, item, listener, now);
    }
  }

  // ----- what an answer means -----

  /** What the latest of some events on a vote says: it stands since a time, or was withdrawn or cleared. */
  function Latest(events: seq<Event>, key: Key, id: Listener): Option<Option<int>> {
    if |events| == 0 then None
    else
      var e := events[|events| - 1];
      match e
      case Cast(k, l, at) => if k == key && l == id then Some(Some(at)) else Latest(events[..|events| - 1], key, id)
      case Withdrawn(k, l, _) => if k == key && l == id then Some(None) else Latest(events[..|events| - 1], key, id)
      case Cleared(k, _) => if k == key then Some(None) else Latest(events[..|events| - 1], key, id)
      case Touched(_, _) => Latest(events[..|events| - 1], key, id)
  }

  predicate Happened(events: seq<Event>, from: int, to: int) {
    forall i :: 0 <= i < |events| ==> from <= events[i].at <= to
  }

  lemma {:induction false} LatestDecides(log: seq<Event>, more: seq<Event>, key: Key, id: Listener)
    ensures StandingVote(log + more, key, id) ==
      match Latest(more, key, id)
      case None => StandingVote(log, key, id)
      case Some(standing) => standing
    decreases |more|
  {
    if |more| == 0 {
      assert log + more == log;
    } else {
      assert (log + more)[..|log + more| - 1] == log + more[..|more| - 1];
      LatestDecides(log, more[..|more| - 1], key, id);
    }
  }

  lemma {:induction false} LatestHappened(events: seq<Event>, key: Key, id: Listener, from: int, to: int)
    requires Happened(events, from, to)
    ensures var l := Latest(events, key, id); l.Some? && l.value.Some? ==> from <= l.value.value <= to
    decreases |events|
  {
    if |events| > 0 {
      LatestHappened(events[..|events| - 1], key, id, from, to);
    }
  }

  lemma {:induction false} StandingSince(log: seq<Event>, key: Key, id: Listener, now: int)
    requires forall i :: 0 <= i < |log| ==> log[i].at <= now
    ensures StandingVote(log, key, id).Some? ==> StandingVote(log, key, id).value <= now
    decreases |log|
  {
    if |log| > 0 {
      StandingSince(log[..|log| - 1], key, id, now);
    }
  }

  /**
   Until the reported expiry no vote is lost by expiring: whatever happens in the
   meantime, the voters are those whose latest vote, withdrawal or clearing since
   was a vote, and the earlier voters about whom there was none.
   */
  lemma VotesStandUntilExpiry(p: Policy, log: seq<Event>, more: seq<Event>, key: Key, item: string, listener: Listener,
                              now: int, r: VoteState, later: int, id: Listener)
    requires Reports(p, log, key, item, listener, now, r) && r.expiresAt.Some? && now <= later <= r.expiresAt.value
    requires (forall i :: 0 <= i < |log| ==> log[i].at <= now) && Happened(more, now, later)
    ensures id in Voters(p, log + more, key, later) <==>
      match Latest(more, key, id)
      case None => id in Voters(p, log, key, now)
      case Some(standing) => standing.Some?
  {
    LatestDecides(log, more, key, id);
    LatestHappened(more, key, id, now, later);
    VoterIsListener(log + more, key, id);
    VoterIsListener(log, key, id);
    var voters := Voters(p, log, key, now);
    var first :| first in voters && StandingVote(log, key, first) == Some(r.expiresAt.value - p.timeout);
    StandingSince(log, key, first, now);
  }

  /** With no new events the voters stay the same up to and including the expiry, and not a moment longer. */
  lemma VotesFallAfterExpiry(p: Policy, log: seq<Event>, key: Key, item: string, listener: Listener,
                             now: int, r: VoteState, later: int)
    requires Reports(p, log, key, item, listener, now, r) && r.expiresAt.Some? && now <= later
    ensures Voters(p, log, key, later) <= Voters(p, log, key, now)
    ensures Voters(p, log, key, later) == Voters(p, log, key, now) <==> later <= r.expiresAt.value
  {
    var before, after := Voters(p, log, key, now), Voters(p, log, key, later);
    var first :| first in before && StandingVote(log, key, first) == Some(r.expiresAt.value - p.timeout);
    if later <= r.expiresAt.value {
      forall id | id in before ensures id in after {
        assert r.expiresAt.value <= StandingVote(log, key, id).value + p.timeout;
      }
      assert after == before;
    } else {
      assert first !in after;
    }
  }

  /** The quorum is the least number of votes that makes up the percentage, and is never out of reach. */
  lemma QuorumIsLeast(active: int, percent: int)
    requires active >= 1 && 1 <= percent <= 100
    ensures 100 * Required(active, percent) >= active * percent
    ensures forall r :: 100 * r >= active * percent ==> Required(active, percent) <= r
    ensures 1 <= Required(active, percent) <= active
  {
    var need := active * percent;
    NeedBounds(active, percent);
    var q := (need + 99) / 100;
    assert 100 * q >= need && 100 * (q - 1) < need;
  }

  lemma NeedBounds(active: int, percent: int)
    requires active >= 1 && 1 <= percent <= 100
    ensures 1 <= active * percent <= 100 * active
  {
  }

  /** If every active listener has a standing vote, the threshold is met. */
  lemma UnanimousVotePasses(p: Policy, log: seq<Event>, key: Key, item: string, listener: Listener, now: int,
                            r: VoteState)
    requires ValidPolicy(p) && p.enabled && item != "" && Reports(p, log, key, item, listener, now, r)
    requires ActiveSet(p, log, now) != {} && ActiveSet(p, log, now) <= Voters(p, log, key, now)
    ensures r.votes >= r.required
  {
    Positions.SubsetCount(ActiveSet(p, log, now), Voters(p, log, key, now));
    assert |ActiveSet(p, log, now)| >= 1;
    QuorumIsLeast(r.activeListeners, p.percent);
  }

  /** A lone listener's own vote, cast just now, always passes. */
  lemma LoneVotePasses(p: Policy, before: seq<Event>, key: Key, item: string, listener: Listener,
                       touchedAt: int, votedAt: int, now: int, r: VoteState)
    requires ValidPolicy(p) && p.enabled && item != "" && touchedAt <= votedAt <= now
    requires now - touchedAt <= p.activeWindow && now - votedAt <= p.timeout
    requires var log := before + [Touched(listener, touchedAt), Cast(key, listener, votedAt)];
      Reports(p, log, key, item, listener, now, r) && |ActiveSet(p, log, now)| <= 1
    ensures r.voted && r.votes >= r.required == 1
  {
    var log := before + [Touched(listener, touchedAt), Cast(key, listener, votedAt)];
    var touched := before + [Touched(listener, touchedAt)];
    assert log[..|log| - 1] == touched;
    assert LastTouch(touched, listener) == Some(touchedAt);
    assert StandingVote(log, key, listener) == Some(votedAt);
    TouchIsListener(log, listener);
    VoterIsListener(log, key, listener);
    var active, voters := ActiveSet(p, log, now), Voters(p, log, key, now);
    assert listener in active && listener in voters;
    Positions.SubsetCount({listener}, active);
    Positions.SubsetCount({listener}, voters);
    QuorumIsLeast(1, p.percent);
  }
}
