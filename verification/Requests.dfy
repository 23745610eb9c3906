/**
 Requests over the IPC connection of the mpv driver.

 Senders register a channel under a fresh request id; reader goroutines take a
 channel out of the pending map, send the reply on it and close it; the
 supervisor closes all pending channels when the connection is lost.  An old
 reader may still be draining its connection while a new one runs.
 */
module Requests {
  import opened Wrappers

  /** What happened to a channel: replies sent on it (by the id they carry) and its closing. */
  datatype Signal = Reply(id: int) | Closed

  datatype Channel = Channel(request: int, signals: seq<Signal>)

  /** A reader goroutine between taking a request and closing its channel. */
  datatype Reader = Free | Taken(channel: nat, reply: int) | Delivered(channel: nat)

  /**
   The state shared by senders, readers and the supervisor.  `starting` holds
   the channels of senders that have not reached the critical section yet;
   `registered` those whose request was written.
   */
  datatype Wire = Wire(connection: Option<nat>, lastRequest: nat, channels: seq<Channel>,
                       pending: map<int, nat>, starting: set<nat>, registered: set<nat>,
                       readers: map<nat, Reader>)

  const INITIAL_WIRE := Wire(None, 0, [], map[], {}, {}, map[])

  /** One atomic step of one goroutine; a critical section under the mutex is one step. */
  datatype WireStep =
    | Connect(connection: nat)
    | Begin
    | Register(channel: nat, written: bool)
    | Take(reader: nat, message: int)
    | Deliver(reader: nat)
    | Finish(reader: nat)
    | Disconnect(connection: nat)

  predicate Enabled(w: Wire, step: WireStep) {
    match step
    case Register(c, _) => c in w.starting && c < |w.channels|
    case Take(r, _) => ReaderState(w, r).Free?
    case Deliver(r) => ReaderState(w, r).Taken? && ReaderState(w, r).channel < |w.channels|
    case Finish(r) => ReaderState(w, r).Delivered? && ReaderState(w, r).channel < |w.channels|
    case _ => true
  }

  function ReaderState(w: Wire, r: nat): Reader {
    if r in w.readers then w.readers[r] else Free
  }

  function Signalled(channels: seq<Channel>, c: nat, signal: Signal): seq<Channel>
    requires c < |channels|
  {
    channels[c := channels[c].(signals := channels[c].signals + [signal])]
  }

  function CloseAll(channels: seq<Channel>, which: set<nat>): seq<Channel> {
    seq(|channels|, i requires 0 <= i < |channels| =>
      if i in which then channels[i].(signals := channels[i].signals + [Closed]) else channels[i])
  }

  function Next(w: Wire, step: WireStep): Wire
    requires Enabled(w, step)
  {
    match step
    case Connect(connection) => w.(connection := Some(connection))
    case Begin =>
      w.(lastRequest := w.lastRequest + 1, channels := w.channels + [Channel(w.lastRequest + 1, [])],
         starting := w.starting + {|w.channels|})
    case Register(c, written) =>
      var w' := w.(starting := w.starting - {c});
      if w.connection.None? then w'
      else if written then w'.(pending := w.pending[w.channels[c].request := c], registered := w.registered + {c})
      else w'.(pending := w.pending - {w.channels[c].request})
    case Take(r, message) =>
      if message in w.pending
      then w.(pending := w.pending - {message}, readers := w.readers[r := Taken(w.pending[message], message)])
      else w
    case Deliver(r) =>
      var held := w.readers[r];
      w.(channels := Signalled(w.channels, held.channel, Reply(held.reply)),
         readers := w.readers[r := Delivered(held.channel)])
    case Finish(r) =>
      w.(channels := Signalled(w.channels, w.readers[r].channel, Closed), readers := w.readers[r := Free])
    case Disconnect(connection) =>
      w.(connection := if w.connection == Some(connection) then None else w.connection,
         channels := CloseAll(w.channels, set id | id in w.pending :: w.pending[id]), pending := map[])
  }

  predicate HeldBy(readers: map<nat, Reader>, r: nat, c: nat) {
    r in readers && !readers[r].Free? && readers[r].channel == c
  }

  /** At most one reply, carrying the channel's own id, and at most one close, after any reply. */
  predicate SignalledOnce(ch: Channel) {
    ch.signals == [] || ch.signals == [Reply(ch.request)] || ch.signals == [Reply(ch.request), Closed]
    || ch.signals == [Closed]
  }

  predicate IsClosed(ch: Channel) {
    |ch.signals| > 0 && ch.signals[|ch.signals| - 1] == Closed
  }

  ghost predicate ChannelsOk(w: Wire) {
    && (forall c: nat :: c < |w.channels| ==> SignalledOnce(w.channels[c]))
    && (forall c: nat :: c < |w.channels| ==> w.channels[c].request <= w.lastRequest)
    && (forall c: nat, d: nat :: c < d < |w.channels| ==> w.channels[c].request != w.channels[d].request)
    && (forall c :: c in w.registered ==> c < |w.channels|)
    && (forall c :: c in w.starting ==> c < |w.channels| && c !in w.registered && w.channels[c].signals == [])
  }

  ghost predicate PendingOk(w: Wire) {
    forall id :: id in w.pending ==>
      && w.pending[id] in w.registered && w.pending[id] < |w.channels|
      && w.channels[w.pending[id]] == Channel(id, [])
  }

  /** What a reader holds was registered, is no longer pending, and has the reply it should have. */
  predicate Holds(w: Wire, held: Reader)
    requires !held.Free?
  {
    && held.channel in w.registered && held.channel < |w.channels|
    && w.channels[held.channel].request !in w.pending
    && w.channels[held.channel].signals == (if held.Taken? then [] else [Reply(w.channels[held.channel].request)])
    && (held.Taken? ==> held.reply == w.channels[held.channel].request)
  }

  ghost predicate ReadersOk(w: Wire) {
    && (forall r :: r in w.readers && !w.readers[r].Free? ==> Holds(w, w.readers[r]))
    && (forall r, q :: r in w.readers && q in w.readers && r != q && !w.readers[r].Free? && !w.readers[q].Free? ==>
          w.readers[r].channel != w.readers[q].channel)
  }

  /** A registered request is someone's business: it is pending, held by a reader, or closed. */
  ghost predicate NoneLost(w: Wire) {
    forall c :: c in w.registered && c < |w.channels| ==>
      IsClosed(w.channels[c]) || w.channels[c].request in w.pending || exists r :: HeldBy(w.readers, r, c)
  }

  ghost predicate WireInv(w: Wire) {
    ChannelsOk(w) && PendingOk(w) && ReadersOk(w) && NoneLost(w)
  }

  lemma TakeKeepsInv(w: Wire, r: nat, message: int)
    requires WireInv(w) && Enabled(w, Take(r, message))
    ensures WireInv(Next(w, Take(r, message)))
  {
    var w' := Next(w, Take(r, message));
    forall c | c in w.registered && !IsClosed(w.channels[c]) && w.channels[c].request !in w'.pending
      ensures exists q :: HeldBy(w'.readers, q, c)
    {
      if w.channels[c].request in w.pending {
        assert HeldBy(w'.readers, r, c);
      } else {
        var q :| HeldBy(w.readers, q, c);
        assert HeldBy(w'.readers, q, c);
      }
    }
  }

  lemma DeliverKeepsInv(w: Wire, r: nat)
    requires WireInv(w) && Enabled(w, Deliver(r))
    ensures WireInv(Next(w, Deliver(r)))
  {
    var w' := Next(w, Deliver(r));
    forall c | c in w.registered && !IsClosed(w'.channels[c]) && w.channels[c].request !in w'.pending
      ensures exists q :: HeldBy(w'.readers, q, c)
    {
      if HeldBy(w.readers, r, c) {
        assert HeldBy(w'.readers, r, c);
      } else {
        var q :| HeldBy(w.readers, q, c);
        assert HeldBy(w'.readers, q, c);
      }
    }
  }

  lemma FinishKeepsInv(w: Wire, r: nat)
    requires WireInv(w) && Enabled(w, Finish(r))
    ensures WireInv(Next(w, Finish(r)))
  {
    var w' := Next(w, Finish(r));
    forall c | c in w.registered && !IsClosed(w'.channels[c]) && w.channels[c].request !in w'.pending
      ensures exists q :: HeldBy(w'.readers, q, c)
    {
      var q :| HeldBy(w.readers, q, c);
      assert HeldBy(w'.readers, q, c);
    }
  }

  lemma BeginKeepsInv(w: Wire)
    requires WireInv(w)
    ensures WireInv(Next(w, Begin))
  {
  }

  lemma StartingIsNotPending(w: Wire, c: nat)
    requires WireInv(w) && c in w.starting
    ensures c < |w.channels| && w.channels[c].request !in w.pending
  {
    forall id | id in w.pending ensures id != w.channels[c].request {
      assert w.pending[id] in w.registered;
    }
  }

  lemma PendingChannelsDiffer(w: Wire)
    requires WireInv(w)
    ensures forall id :: id in w.pending ==> w.pending[id] < |w.channels|
    ensures forall id, k :: id in w.pending && k in w.pending && id != k ==> w.pending[id] != w.pending[k]
  {
  }

  lemma RegisterKeepsInv(w: Wire, c: nat, written: bool)
    requires WireInv(w) && Enabled(w, Register(c, written))
    ensures WireInv(Next(w, Register(c, written)))
  {
    StartingIsNotPending(w, c);
    if w.connection.Some? && written {
      WrittenKeepsInv(w, c);
    } else {
      assert w.pending - {w.channels[c].request} == w.pending;
      UnwrittenKeepsInv(w, c);
    }
  }

  lemma UnwrittenKeepsInv(w: Wire, c: nat)
    requires WireInv(w)
    ensures WireInv(w.(starting := w.starting - {c}))
  {
  }

  lemma WrittenKeepsInv(w: Wire, c: nat)
    requires WireInv(w) && c in w.starting && c < |w.channels| && w.channels[c].request !in w.pending
    ensures WireInv(w.(starting := w.starting - {c}, pending := w.pending[w.channels[c].request := c],
                       registered := w.registered + {c}))
  {
    forall r | r in w.readers && !w.readers[r].Free?
      ensures w.readers[r].channel < |w.channels| && w.channels[w.readers[r].channel].request != w.channels[c].request
    {
      assert Holds(w, w.readers[r]);
    }
  }

  /** Closing the pending channels is the one signal each of them gets. */
  lemma CloseAllSignals(w: Wire)
    requires WireInv(w)
    ensures var all := set id | id in w.pending :: w.pending[id];
      forall c: nat :: c < |w.channels| ==>
        && SignalledOnce(CloseAll(w.channels, all)[c])
        && CloseAll(w.channels, all)[c].request == w.channels[c].request
        && (c !in all ==> CloseAll(w.channels, all)[c] == w.channels[c])
        && (c in all ==> IsClosed(CloseAll(w.channels, all)[c]) && w.channels[c].request in w.pending)
        && (w.channels[c].request in w.pending && c in w.registered ==> c in all)
  {
    forall c: nat | c < |w.channels| && w.channels[c].request in w.pending && c in w.registered
      ensures w.pending[w.channels[c].request] == c
    {
      assert w.channels[w.pending[w.channels[c].request]].request == w.channels[c].request;
    }
  }

  lemma DisconnectKeepsInv(w: Wire, connection: nat)
    requires WireInv(w)
    ensures WireInv(Next(w, Disconnect(connection)))
  {
    CloseAllSignals(w);
    hide SignalledOnce, CloseAll, IsClosed;
    var w' := Next(w, Disconnect(connection));
    assert |w'.channels| == |w.channels| by { CloseAllLength(w); }
    forall c | c in w.starting ensures c !in set id | id in w.pending :: w.pending[id] {
      StartingIsNotPending(w, c);
    }
  }

  lemma CloseAllLength(w: Wire)
    ensures |CloseAll(w.channels, set id | id in w.pending :: w.pending[id])| == |w.channels|
  {
  }

  lemma StepKeepsInv(w: Wire, step: WireStep)
    requires WireInv(w) && Enabled(w, step)
    ensures WireInv(Next(w, step))
  {
    match step
    case Take(r, message) => TakeKeepsInv(w, r, message);
    case Deliver(r) => DeliverKeepsInv(w, r);
    case Finish(r) => FinishKeepsInv(w, r);
    case Disconnect(connection) => DisconnectKeepsInv(w, connection);
    case Begin => BeginKeepsInv(w);
    case Register(c, written) => RegisterKeepsInv(w, c, written);
    case Connect(_) =>
  }

  /** An interleaving: at each point some goroutine takes a step that it can take. */
  function Interleave(w: Wire, steps: seq<WireStep>): Wire
    decreases |steps|
  {
    if |steps| == 0 then w
    else if Enabled(w, steps[0]) then Interleave(Next(w, steps[0]), steps[1..])
    else Interleave(w, steps[1..])
  }

  lemma {:induction false} InterleavingKeepsInv(w: Wire, steps: seq<WireStep>)
    requires WireInv(w)
    ensures WireInv(Interleave(w, steps))
    decreases |steps|
  {
    if |steps| > 0 {
      if Enabled(w, steps[0]) {
        StepKeepsInv(w, steps[0]);
        InterleavingKeepsInv(Next(w, steps[0]), steps[1..]);
      } else {
        InterleavingKeepsInv(w, steps[1..]);
      }
    }
  }

  /**
   In every interleaving each channel carries at most one reply, its own, and
   is closed at most once with nothing sent afterwards: neither the send nor
   the close of a reader ever meets a closed channel or a full buffer.
   */
  lemma ChannelsAreSafe(steps: seq<WireStep>)
    ensures var w := Interleave(INITIAL_WIRE, steps);
      && (forall c: nat :: c < |w.channels| ==> SignalledOnce(w.channels[c]))
      && (forall r :: r in w.readers && w.readers[r].Taken? ==>
            w.readers[r].channel < |w.channels| && w.channels[w.readers[r].channel].signals == [])
      && (forall r :: r in w.readers && w.readers[r].Delivered? ==>
            w.readers[r].channel < |w.channels| && !IsClosed(w.channels[w.readers[r].channel]))
  {
    InterleavingKeepsInv(INITIAL_WIRE, steps);
    var w := Interleave(INITIAL_WIRE, steps);
    assert forall r :: r in w.readers && !w.readers[r].Free? ==> Holds(w, w.readers[r]);
  }

  /** After a disconnect no sender waits in vain: its channel is closed or in the hands of a reader. */
  lemma DisconnectAnswersEveryone(steps: seq<WireStep>, connection: nat)
    ensures var w := Next(Interleave(INITIAL_WIRE, steps), Disconnect(connection));
      forall c :: c in w.registered ==>
        c < |w.channels| && (IsClosed(w.channels[c]) || exists r :: HeldBy(w.readers, r, c))
  {
    var w := Interleave(INITIAL_WIRE, steps);
    InterleavingKeepsInv(INITIAL_WIRE, steps);
    StepKeepsInv(w, Disconnect(connection));
  }

  /** Closes the channel of every pending request, in any order. */
  method ClosePending(channels: seq<Channel>, pending: map<int, nat>) returns (r: seq<Channel>)
    requires forall id :: id in pending ==> pending[id] < |channels|
    requires forall id, k :: id in pending && k in pending && id != k ==> pending[id] != pending[k]
    ensures r == CloseAll(channels, set id | id in pending :: pending[id])
  {
    r := channels;
    var remaining := pending.Keys;
    ghost var closed: set<nat> := {};
    while exists id :: id in remaining
      invariant remaining <= pending.Keys
      invariant closed == set id | id in pending && id !in remaining :: pending[id]
      invariant r == CloseAll(channels, closed)
      decreases remaining
    {
      var id :| id in remaining;
      r := Signalled(r, pending[id], Closed);
      closed := closed + {pending[id]};
      remaining := remaining - {id};
    }
    assert closed == set id | id in pending :: pending[id];
  }
}
