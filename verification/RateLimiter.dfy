/**
 The fixed-window limiter on queue submissions.  Calls are a trace with a
 non-decreasing clock; what the limiter grants over sliding intervals follows
 from the windows it keeps per key.
 */
module RateLimiter {
  import opened Arithmetic

  datatype Window = Window(start: int, count: int)

  datatype Policy = Policy(limit: int, window: int)

  datatype Call = Call(key: string, time: int)

  type Clients = map<string, Window>

  function Current(p: Policy, clients: Clients, c: Call): Window {
    if c.key in clients && c.time - clients[c.key].start < p.window then clients[c.key] else Window(c.time, 0)
  }

  predicate Grants(p: Policy, clients: Clients, c: Call) {
    Current(p, clients, c).count < p.limit
  }

  function After(p: Policy, clients: Clients, c: Call): Clients {
    if Grants(p, clients, c)
    then clients[c.key := Window(Current(p, clients, c).start, Current(p, clients, c).count + 1)]
    else clients
  }

  class Limiter {
    const policy: Policy
    var clients: Clients

    constructor (limit: int, window: int)
      ensures policy == Policy(limit, window) && clients == map[]
    {
      policy := Policy(limit, window);
      clients := map[];
    }

    method Allow(key: string, now: int) returns (granted: bool)
      modifies this
      ensures granted == Grants(policy, old(clients), Call(key, now))
      ensures clients == After(policy, old(clients), Call(key, now))
    {
      var current := if key in clients then clients[key] else Window(0, 0);
      if key !in clients || now - current.start >= policy.window {
        current := Window(now, 0);
      }
      if current.count >= policy.limit {
        return false;
      }
      clients := clients[key := current.(count := current.count + 1)];
      return true;
    }
  }

  // ----- traces -----

  predicate Ordered(calls: seq<Call>) {
    forall i, j :: 0 <= i < j < |calls| ==> calls[i].time <= calls[j].time
  }

  function State(p: Policy, calls: seq<Call>): Clients {
    if |calls| == 0 then map[]
    else After(p, State(p, calls[..|calls| - 1]), calls[|calls| - 1])
  }

  /** How many calls of `key` with a time in [from, to) were granted. */
  function Granted(p: Policy, calls: seq<Call>, key: string, from: int, to: int): nat {
    if |calls| == 0 then 0
    else
      var before, c := calls[..|calls| - 1], calls[|calls| - 1];
      Granted(p, before, key, from, to)
      + if c.key == key && from <= c.time < to && Grants(p, State(p, before), c) then 1 else 0
  }

  lemma {:induction false} NoneBefore(p: Policy, calls: seq<Call>, key: string, from: int, to: int)
    requires forall i :: 0 <= i < |calls| ==> calls[i].time < from
    ensures Granted(p, calls, key, from, to) == 0
    decreases |calls|
  {
    if |calls| > 0 {
      NoneBefore(p, calls[..|calls| - 1], key, from, to);
    }
  }

  /** What the window of `key` says about its grants in an interval starting at `from` that is not over yet. */
  predicate WindowBounds(p: Policy, w: Window, n: nat, from: int)
    requires p.window > 0
  {
    && 1 <= w.count <= p.limit
    && (w.start < from ==> n <= w.count - 1)
    && (w.start >= from ==> n <= p.limit - 1 + p.limit * ((w.start - from) / p.window) + w.count)
  }

  lemma NextQuotient(d: int, e: int, window: int)
    requires window > 0 && 0 <= d && d + window <= e
    ensures d / window + 1 <= e / window
  {
    QuotientAtLeast(e, d / window + 1, window);
  }

  lemma LimitOnceMore(limit: int, q: int, q': int)
    requires 0 <= limit && q + 1 <= q'
    ensures limit * q + limit <= limit * q'
  {
    MulAtLeast(limit, q + 1, q');
  }

  /** A new window starts a whole window length after the old one. */
  lemma NewWindowBounds(p: Policy, w: Window, n: nat, from: int, time: int)
    requires p.window > 0 && WindowBounds(p, w, n, from)
    requires time - w.start >= p.window && time >= from
    ensures WindowBounds(p, Window(time, 1), n + 1, from)
  {
    if w.start < from {
      MulAtLeast(p.limit, 0, (time - from) / p.window);
    } else {
      var q, q' := (w.start - from) / p.window, (time - from) / p.window;
      NextQuotient(w.start - from, time - from, p.window);
      LimitOnceMore(p.limit, q, q');
    }
  }

  lemma FirstWindowBounds(p: Policy, from: int, time: int)
    requires p.window > 0 && p.limit >= 1 && time >= from
    ensures WindowBounds(p, Window(time, 1), 1, from)
  {
    MulAtLeast(p.limit, 0, (time - from) / p.window);
  }

  /** While the interval lasts, the grants of a key are bounded through its window. */
  lemma {:induction false} WindowsBound(p: Policy, calls: seq<Call>, key: string, from: int, to: int)
    requires p.window > 0 && Ordered(calls)
    requires forall i :: 0 <= i < |calls| ==> calls[i].time < to
    ensures var clients, n := State(p, calls), Granted(p, calls, key, from, to);
      if key in clients then
        WindowBounds(p, clients[key], n, from) && exists i :: 0 <= i < |calls| && calls[i].time == clients[key].start
      else n == 0
    decreases |calls|
  {
    if |calls| > 0 {
      var before, c := calls[..|calls| - 1], calls[|calls| - 1];
      WindowsBound(p, before, key, from, to);
      var clients, n := State(p, before), Granted(p, before, key, from, to);
      if key in clients {
        var i :| 0 <= i < |before| && before[i].time == clients[key].start;
        assert calls[i].time == clients[key].start;
      }
      if c.key == key && Grants(p, clients, c) {
        assert calls[|calls| - 1].time == c.time;
        if c.time < from {
          NoneBefore(p, calls, key, from, to);
        } else if key !in clients {
          FirstWindowBounds(p, from, c.time);
        } else if c.time - clients[key].start >= p.window {
          NewWindowBounds(p, clients[key], n, from, c.time);
        }
      }
    }
  }

  function Prefix(calls: seq<Call>, to: int): (n: nat)
    ensures n <= |calls|
  {
    if |calls| == 0 || calls[|calls| - 1].time < to then |calls| else Prefix(calls[..|calls| - 1], to)
  }

  /** Calls after the interval neither add to it nor matter. */
  lemma {:induction false} OnlyPrefixCounts(p: Policy, calls: seq<Call>, key: string, from: int, to: int)
    requires Ordered(calls)
    ensures var n := Prefix(calls, to);
      && Granted(p, calls, key, from, to) == Granted(p, calls[..n], key, from, to)
      && forall i :: 0 <= i < n ==> calls[i].time < to
    decreases |calls|
  {
    if |calls| == 0 || calls[|calls| - 1].time < to {
      assert calls[..|calls|] == calls;
    } else {
      OnlyPrefixCounts(p, calls[..|calls| - 1], key, from, to);
      assert calls[..|calls| - 1][..Prefix(calls, to)] == calls[..Prefix(calls, to)];
    }
  }

  /**
   Any half-open interval of k windows, wherever it starts, sees at most
   (k + 1) * limit - 1 granted calls of one key: fewer than k + 1 limits.
   */
  lemma SlidingBound(p: Policy, calls: seq<Call>, key: string, from: int, k: nat)
    requires p.window > 0 && p.limit >= 1 && Ordered(calls)
    ensures Granted(p, calls, key, from, from + k * p.window) <= (k + 1) * p.limit - 1
  {
    var to := from + k * p.window;
    OnlyPrefixCounts(p, calls, key, from, to);
    var prefix := calls[..Prefix(calls, to)];
    WindowsBound(p, prefix, key, from, to);
    var clients, n := State(p, prefix), Granted(p, prefix, key, from, to);
    hide State, Granted, Ordered, WindowBounds;
    if key in clients {
      var i :| 0 <= i < |prefix| && prefix[i].time == clients[key].start;
      BoundedBy(p, clients[key], n, from, k);
    } else {
      MulAtLeast(p.limit, 1, k + 1);
    }
  }

  lemma BoundedBy(p: Policy, w: Window, n: nat, from: int, k: nat)
    requires p.window > 0 && p.limit >= 1 && WindowBounds(p, w, n, from) && w.start < from + k * p.window
    ensures n <= (k + 1) * p.limit - 1
  {
    if w.start >= from {
      QuotientBelow(w.start - from, k, p.window);
      InteriorBound(p.limit, (w.start - from) / p.window, k);
    } else {
      MulAtLeast(p.limit, 1, k + 1);
    }
  }

  lemma InteriorBound(limit: int, q: int, k: nat)
    requires limit >= 1 && q < k
    ensures limit * q + 2 * limit <= (k + 1) * limit
  {
    MulAtLeast(limit, q + 2, k + 1);
  }

  lemma {:induction false} NoLimitNoGrant(p: Policy, calls: seq<Call>, key: string, from: int, to: int)
    requires p.limit <= 0
    ensures State(p, calls) == map[] && Granted(p, calls, key, from, to) == 0
    decreases |calls|
  {
    if |calls| > 0 {
      NoLimitNoGrant(p, calls[..|calls| - 1], key, from, to);
    }
  }

  // ----- the bound is met -----

  function Burst(key: string, time: int, n: nat): seq<Call> {
    if n == 0 then [] else Burst(key, time, n - 1) + [Call(key, time)]
  }

  /** One call at 0, the rest of the first limit a moment before its window ends, then a limit at each later window. */
  function Bursts(p: Policy, key: string, k: nat): seq<Call>
    requires p.limit >= 1
  {
    if k == 0 then [Call(key, 0)] + Burst(key, p.window - 1, p.limit - 1)
    else Bursts(p, key, k - 1) + Burst(key, k * p.window, p.limit)
  }

  lemma OneMoreCall(p: Policy, calls: seq<Call>, c: Call, from: int, to: int)
    ensures State(p, calls + [c]) == After(p, State(p, calls), c)
    ensures Granted(p, calls + [c], c.key, from, to) ==
            Granted(p, calls, c.key, from, to) + (if from <= c.time < to && Grants(p, State(p, calls), c) then 1 else 0)
  {
    assert (calls + [c])[..|calls|] == calls;
  }

  /** A burst that fits the current window is granted. */
  lemma {:induction false} BurstIsGranted(p: Policy, calls: seq<Call>, key: string, time: int, n: nat, from: int,
                                          to: int)
    requires p.window > 0 && Current(p, State(p, calls), Call(key, time)).count + n <= p.limit
    ensures var after, current := calls + Burst(key, time, n), Current(p, State(p, calls), Call(key, time));
      && Granted(p, after, key, from, to) == Granted(p, calls, key, from, to) + (if from <= time < to then n else 0)
      && State(p, after) ==
           if n == 0 then State(p, calls) else State(p, calls)[key := Window(current.start, current.count + n)]
    decreases n
  {
    hide State, Granted;
    if n == 0 {
      assert calls + Burst(key, time, n) == calls;
    } else {
      BurstIsGranted(p, calls, key, time, n - 1, from, to);
      OneMoreCall(p, calls + Burst(key, time, n - 1), Call(key, time), from, to);
      assert calls + Burst(key, time, n) == calls + Burst(key, time, n - 1) + [Call(key, time)];
    }
  }

  lemma {:induction false} BurstInOrder(calls: seq<Call>, key: string, time: int, n: nat)
    requires Ordered(calls) && forall c :: c in calls ==> c.time <= time
    ensures Ordered(calls + Burst(key, time, n))
    ensures forall c :: c in calls + Burst(key, time, n) ==> c.time <= time
    decreases n
  {
    if n == 0 {
      assert calls + Burst(key, time, n) == calls;
    } else {
      BurstInOrder(calls, key, time, n - 1);
      assert calls + Burst(key, time, n) == calls + Burst(key, time, n - 1) + [Call(key, time)];
    }
  }

  lemma {:induction false} BurstsInOrder(p: Policy, key: string, k: nat)
    requires p.limit >= 1 && p.window >= 1
    ensures Ordered(Bursts(p, key, k)) && forall c :: c in Bursts(p, key, k) ==> c.time < k * p.window + p.window
    decreases k
  {
    if k == 0 {
      BurstInOrder([Call(key, 0)], key, p.window - 1, p.limit - 1);
    } else {
      BurstsInOrder(p, key, k - 1);
      WindowOn(k, p.window);
      hide Ordered, Burst;
      BurstInOrder(Bursts(p, key, k - 1), key, k * p.window, p.limit);
    }
  }

  /** All bursts are granted: the interval counts all but the very first call. */
  lemma {:induction false} BurstsAreGranted(p: Policy, key: string, k: nat, to: int)
    requires p.limit >= 1 && p.window >= 2 && p.window - 1 < to && k * p.window < to
    ensures State(p, Bursts(p, key, k)) == map[key := Window(k * p.window, p.limit)]
    ensures Granted(p, Bursts(p, key, k), key, 1, to) == (k + 1) * p.limit - 1
    decreases k
  {
    hide State, Granted, Burst;
    if k == 0 {
      FirstBursts(p, key, to);
    } else {
      WindowOn(k, p.window);
      BurstsAreGranted(p, key, k - 1, to);
      BurstIsGranted(p, Bursts(p, key, k - 1), key, k * p.window, p.limit, 1, to);
      WindowOn(k + 1, p.limit);
      MulAtLeast(p.window, 1, k);
    }
  }

  lemma FirstBursts(p: Policy, key: string, to: int)
    requires p.limit >= 1 && p.window >= 2 && p.window - 1 < to
    ensures State(p, Bursts(p, key, 0)) == map[key := Window(0, p.limit)]
    ensures Granted(p, Bursts(p, key, 0), key, 1, to) == p.limit - 1
  {
    var one := [Call(key, 0)];
    FirstCall(p, key, to);
    hide State, Granted, Burst;
    BurstIsGranted(p, one, key, p.window - 1, p.limit - 1, 1, to);
  }

  lemma FirstCall(p: Policy, key: string, to: int)
    requires p.limit >= 1
    ensures State(p, [Call(key, 0)]) == map[key := Window(0, 1)] && Granted(p, [Call(key, 0)], key, 1, to) == 0
  {
    assert [Call(key, 0)][..0] == [];
  }

  lemma WindowOn(k: nat, m: int)
    ensures (k - 1) * m + m == k * m
  {
  }

  /** The bound is met for every limit, every window of more than one tick, and every k. */
  lemma SlidingBoundIsMet(p: Policy, key: string, k: nat)
    requires p.limit >= 1 && p.window >= 2 && k >= 1
    ensures Ordered(Bursts(p, key, k))
    ensures Granted(p, Bursts(p, key, k), key, 1, 1 + k * p.window) == (k + 1) * p.limit - 1
  {
    MulAtLeast(p.window, 1, k);
    BurstsInOrder(p, key, k);
    BurstsAreGranted(p, key, k, 1 + k * p.window);
  }

  // ----- denials -----

  /** The count of a window is the number of grants since it started. */
  lemma {:induction false} WindowCounts(p: Policy, calls: seq<Call>, key: string, to: int)
    requires p.window > 0 && Ordered(calls)
    requires forall i :: 0 <= i < |calls| ==> calls[i].time < to
    ensures key in State(p, calls) ==>
      Granted(p, calls, key, State(p, calls)[key].start, to) == State(p, calls)[key].count
    decreases |calls|
  {
    if |calls| > 0 {
      var before, c := calls[..|calls| - 1], calls[|calls| - 1];
      WindowCounts(p, before, key, to);
      var clients := State(p, before);
      if c.key == key && Grants(p, clients, c) {
        if key in clients && c.time - clients[key].start < p.window {
          WindowsBound(p, before, key, clients[key].start, to);
          var i :| 0 <= i < |before| && before[i].time == clients[key].start;
          assert calls[i].time <= c.time;
        } else {
          WindowIsOver(p, before, key, c.time, to);
        }
      }
    }
  }

  /** When a window is over, or there was none, nothing was granted at the present time. */
  lemma {:induction false} WindowIsOver(p: Policy, calls: seq<Call>, key: string, time: int, to: int)
    requires p.window > 0 && Ordered(calls) && forall i :: 0 <= i < |calls| ==> calls[i].time <= time
    requires key in State(p, calls) ==> time - State(p, calls)[key].start >= p.window
    ensures Granted(p, calls, key, time, to) == 0
    decreases |calls|
  {
    if |calls| > 0 {
      var before, c := calls[..|calls| - 1], calls[|calls| - 1];
      var clients := State(p, before);
      if c.key == key && Grants(p, clients, c) {
        if key in clients && c.time - clients[key].start < p.window {
          assert State(p, calls)[key].start == clients[key].start;
        }
      }
      WindowIsOver(p, before, key, time, to);
    }
  }

  lemma {:induction false} MoreFromEarlier(p: Policy, calls: seq<Call>, key: string, from: int, later: int, to: int)
    requires from <= later
    ensures Granted(p, calls, key, later, to) <= Granted(p, calls, key, from, to)
    decreases |calls|
  {
    if |calls| > 0 {
      MoreFromEarlier(p, calls[..|calls| - 1], key, from, later, to);
    }
  }

  /** A call is denied only if `limit` calls of its key were granted less than one window before it. */
  lemma DeniedOnlyWhenSpent(p: Policy, calls: seq<Call>, c: Call)
    requires p.window > 0 && Ordered(calls + [c])
    requires !Grants(p, State(p, calls), c)
    ensures Granted(p, calls, c.key, c.time - p.window + 1, c.time + 1) >= p.limit
  {
    var clients := State(p, calls);
    assert forall i :: 0 <= i < |calls| ==> calls[i] == (calls + [c])[i];
    assert (calls + [c])[|calls|] == c;
    if c.key in clients && c.time - clients[c.key].start < p.window {
      WindowCounts(p, calls, c.key, c.time + 1);
      MoreFromEarlier(p, calls, c.key, c.time - p.window + 1, clients[c.key].start, c.time + 1);
    }
  }

  // ----- keys -----

  function Only(calls: seq<Call>, key: string): seq<Call> {
    if |calls| == 0 then []
    else
      var rest, c := Only(calls[..|calls| - 1], key), calls[|calls| - 1];
      if c.key == key then rest + [c] else rest
  }

  /** What other keys do changes nothing for a key: its window is the one its own calls give. */
  lemma {:induction false} KeysAreIndependent(p: Policy, calls: seq<Call>, key: string)
    ensures var all, own := State(p, calls), State(p, Only(calls, key));
      && (key in all <==> key in own)
      && (key in all ==> all[key] == own[key])
    ensures forall time ::
      Grants(p, State(p, calls), Call(key, time)) == Grants(p, State(p, Only(calls, key)), Call(key, time))
    decreases |calls|
  {
    if |calls| > 0 {
      var before, c := calls[..|calls| - 1], calls[|calls| - 1];
      KeysAreIndependent(p, before, key);
      if c.key == key {
        assert (Only(before, key) + [c])[..|Only(before, key)|] == Only(before, key);
      }
    }
  }
}
