/**
 The mpv driver object: its mutex-guarded fields, with one method per critical
 section and per step of a reader goroutine.
 */
module Mpv {
  import opened Wrappers
  import opened QueueModel
  import Player
  import opened Requests

  class Driver {
    var state: Player.State
    var connection: Option<nat>
    var lastRequest: nat
    var channels: seq<Channel>
    var pending: map<int, nat>
    var readers: map<nat, Reader>
    ghost var starting: set<nat>
    ghost var registered: set<nat>

    ghost function View(): Wire
      reads this
    {
      Wire(connection, lastRequest, channels, pending, starting, registered, readers)
    }

    ghost predicate Valid()
      reads this
    {
      WireInv(View())
    }

    constructor ()
      ensures Valid() && View() == INITIAL_WIRE && state == Player.INITIAL_STATE
    {
      state := Player.INITIAL_STATE;
      connection, lastRequest, channels, pending, readers := None, 0, [], map[], map[];
      starting, registered := {}, {};
    }

    /** A property change: the field, then the status that follows from the flags. */
    method HandleProperty(p: Player.Property) returns (event: Player.State)
      modifies this`state
      ensures state == Player.Drive(old(state), Player.Changed(p)) == event
    {
      match p {
        case MediaTitle(text) => state := state.(title := text);
        case TimePosition(seconds) => state := state.(position := seconds);
        case Duration(seconds) => state := state.(duration := seconds);
        case Pause(on) => state := state.(paused := on);
        case PausedForCache(on) => state := state.(buffering := on);
        case VolumeLevel(level) => state := state.(volume := Player.Truncate(level + 0.5));
        case CoreIdle(on) =>
          if on {
            state := state.(status := Idle);
          }
        case Other =>
      }
      if state.buffering {
        state := state.(status := Buffering);
      } else if state.paused {
        state := state.(status := Paused);
      } else if state.status != Idle {
        state := state.(status := Playing);
      }
      event := state;
    }

    method BeginLoad() returns (event: Player.State)
      modifies this`state
      ensures state == Player.Drive(old(state), Player.Load) == event
    {
      state := Player.State(Loading, "", 0.0, 0.0, false, false, state.volume, "");
      event := state;
    }

    method Connected(c: nat)
      requires Valid()
      modifies this`connection
      ensures Valid() && View() == Next(old(View()), Connect(c))
    {
      StepKeepsInv(View(), Connect(c));
      connection := Some(c);
    }

    /** The start of a send, outside the mutex: a fresh id and a fresh channel. */
    method NewRequest() returns (id: nat, channel: nat)
      requires Valid()
      modifies this`lastRequest, this`channels, this`starting
      ensures Valid() && View() == Next(old(View()), Begin)
      ensures channel in starting && channel < |channels| && channels[channel] == Channel(id, [])
    {
      StepKeepsInv(View(), Begin);
      lastRequest := lastRequest + 1;
      id, channel := lastRequest, |channels|;
      channels := channels + [Channel(id, [])];
      starting := starting + {channel};
    }

    /** The critical section of a send. */
    method Register(channel: nat, written: bool) returns (waiting: bool)
      requires Valid() && Enabled(View(), WireStep.Register(channel, written))
      modifies this`pending, this`starting, this`registered
      ensures Valid() && View() == Next(old(View()), WireStep.Register(channel, written))
      ensures waiting <==> old(connection).Some? && written
    {
      StepKeepsInv(View(), WireStep.Register(channel, written));
      StartingIsNotPending(View(), channel);
      starting := starting - {channel};
      if connection.None? {
        return false;
      }
      var id := channels[channel].request;
      pending := pending[id := channel];
      if !written {
        pending := pending - {id};
        return false;
      }
      registered := registered + {channel};
      return true;
    }

    /** A reader looks up a reply in the pending map; an unknown id is ignored. */
    method TakeRequest(reader: nat, message: int)
      requires Valid() && Enabled(View(), Take(reader, message))
      modifies this`pending, this`readers
      ensures Valid() && View() == Next(old(View()), Take(reader, message))
    {
      StepKeepsInv(View(), Take(reader, message));
      if message in pending {
        readers := readers[reader := Taken(pending[message], message)];
      }
      pending := pending - {message};
      assert message !in old(pending) ==> pending == old(pending);
    }

    method SendReply(reader: nat)
      requires Valid() && Enabled(View(), Deliver(reader))
      modifies this`channels, this`readers
      ensures Valid() && View() == Next(old(View()), Deliver(reader))
    {
      StepKeepsInv(View(), Deliver(reader));
      var held := readers[reader];
      channels := Signalled(channels, held.channel, Reply(held.reply));
      readers := readers[reader := Delivered(held.channel)];
    }

    method CloseReply(reader: nat)
      requires Valid() && Enabled(View(), WireStep.Finish(reader))
      modifies this`channels, this`readers
      ensures Valid() && View() == Next(old(View()), WireStep.Finish(reader))
    {
      StepKeepsInv(View(), WireStep.Finish(reader));
      channels := Signalled(channels, readers[reader].channel, Closed);
      readers := readers[reader := Free];
    }

    /** Closes every pending channel, in any order, even those of a newer connection. */
    method ClearConnection(c: nat)
      requires Valid()
      modifies this`connection, this`channels, this`pending
      ensures Valid() && View() == Next(old(View()), Disconnect(c))
    {
      StepKeepsInv(View(), Disconnect(c));
      PendingChannelsDiffer(View());
      if connection == Some(c) {
        connection := None;
      }
      channels := ClosePending(channels, pending);
      pending := map[];
    }
  }
}
