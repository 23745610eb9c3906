/**
 The playback state the mpv driver reports: the status it derives from the
 properties of the player process.
 */
module Player {
  import opened QueueModel

  datatype State = State(status: PlaybackStatus, title: string, position: real, duration: real,
                         paused: bool, buffering: bool, volume: int, error: string)

  /** A property change; `Other` is any property whose value has the wrong type or is not observed. */
  datatype Property =
    | MediaTitle(text: string)
    | TimePosition(seconds: real)
    | Duration(seconds: real)
    | Pause(on: bool)
    | PausedForCache(on: bool)
    | VolumeLevel(level: real)
    | CoreIdle(on: bool)
    | Other

  const INITIAL_STATE := State(Idle, "", 0.0, 0.0, false, false, 100, "")

  /** Conversion to an integer truncates toward zero. */
  function Truncate(x: real): int {
    if x >= 0.0 then x.Floor else -((-x).Floor)
  }

  function WithProperty(s: State, p: Property): State {
    match p
    case MediaTitle(text) => s.(title := text)
    case TimePosition(seconds) => s.(position := seconds)
    case Duration(seconds) => s.(duration := seconds)
    case Pause(on) => s.(paused := on)
    case PausedForCache(on) => s.(buffering := on)
    case VolumeLevel(level) => s.(volume := Truncate(level + 0.5))
    case CoreIdle(on) => if on then s.(status := Idle) else s
    case Other => s
  }

  function Normalised(s: State): State {
    if s.buffering then s.(status := Buffering)
    else if s.paused then s.(status := Paused)
    else if s.status != Idle then s.(status := Playing)
    else s
  }

  function Loading(s: State): State {
    State(PlaybackStatus.Loading, "", 0.0, 0.0, false, false, s.volume, "")
  }

  /** What every state event of the driver satisfies, and the persisted state must too. */
  predicate Agrees(s: State) {
    && (s.status == Buffering <==> s.buffering)
    && (s.status == Paused <==> s.paused && !s.buffering)
  }

  datatype DriverStep = Changed(p: Property) | Load

  function Drive(s: State, step: DriverStep): State {
    match step
    case Changed(p) => Normalised(WithProperty(s, p))
    case Load => Loading(s)
  }

  /** The states emitted along a run of the driver, one per step. */
  function Emitted(s: State, steps: seq<DriverStep>): seq<State>
    decreases |steps|
  {
    if |steps| == 0 then [] else [Drive(s, steps[0])] + Emitted(Drive(s, steps[0]), steps[1..])
  }

  /** Every state the driver emits has a status that agrees with its flags. */
  lemma {:induction false} EmittedAgree(s: State, steps: seq<DriverStep>)
    ensures forall i :: 0 <= i < |Emitted(s, steps)| ==> Agrees(Emitted(s, steps)[i])
    decreases |steps|
  {
    if |steps| > 0 {
      EmittedAgree(Drive(s, steps[0]), steps[1..]);
    }
  }

  // ----- the state as a function of what was received -----

  /** The state after the steps. */
  function Driven(s: State, steps: seq<DriverStep>): State {
    if |steps| == 0 then s else Drive(Driven(s, steps[..|steps| - 1]), steps[|steps| - 1])
  }

  /** The last title received since the last load. */
  function LastTitle(s: State, steps: seq<DriverStep>): string {
    if |steps| == 0 then s.title
    else match steps[|steps| - 1]
      case Load => ""
      case Changed(MediaTitle(text)) => text
      case _ => LastTitle(s, steps[..|steps| - 1])
  }

  function LastPosition(s: State, steps: seq<DriverStep>): real {
    if |steps| == 0 then s.position
    else match steps[|steps| - 1]
      case Load => 0.0
      case Changed(TimePosition(seconds)) => seconds
      case _ => LastPosition(s, steps[..|steps| - 1])
  }

  function LastDuration(s: State, steps: seq<DriverStep>): real {
    if |steps| == 0 then s.duration
    else match steps[|steps| - 1]
      case Load => 0.0
      case Changed(Duration(seconds)) => seconds
      case _ => LastDuration(s, steps[..|steps| - 1])
  }

  function LastPause(s: State, steps: seq<DriverStep>): bool {
    if |steps| == 0 then s.paused
    else match steps[|steps| - 1]
      case Load => false
      case Changed(Pause(on)) => on
      case _ => LastPause(s, steps[..|steps| - 1])
  }

  function LastCachePause(s: State, steps: seq<DriverStep>): bool {
    if |steps| == 0 then s.buffering
    else match steps[|steps| - 1]
      case Load => false
      case Changed(PausedForCache(on)) => on
      case _ => LastCachePause(s, steps[..|steps| - 1])
  }

  /** The volume outlives a load. */
  function LastVolume(s: State, steps: seq<DriverStep>): int {
    if |steps| == 0 then s.volume
    else match steps[|steps| - 1]
      case Changed(VolumeLevel(level)) => Truncate(level + 0.5)
      case _ => LastVolume(s, steps[..|steps| - 1])
  }

  /** The player said it was idle, and has neither paused nor waited for its cache nor loaded since. */
  predicate IdleSince(s: State, steps: seq<DriverStep>) {
    if |steps| == 0 then s.status == Idle
    else
      && !LastPause(s, steps) && !LastCachePause(s, steps)
      && match steps[|steps| - 1]
         case Load => false
         case Changed(CoreIdle(true)) => true
         case _ => IdleSince(s, steps[..|steps| - 1])
  }

  lemma {:induction false} TitleFollows(s: State, steps: seq<DriverStep>)
    ensures Driven(s, steps).title == LastTitle(s, steps)
    decreases |steps|
  {
    if |steps| > 0 {
      TitleFollows(s, steps[..|steps| - 1]);
    }
  }

  lemma {:induction false} VolumeFollows(s: State, steps: seq<DriverStep>)
    ensures Driven(s, steps).volume == LastVolume(s, steps)
    decreases |steps|
  {
    if |steps| > 0 {
      VolumeFollows(s, steps[..|steps| - 1]);
    }
  }

  lemma {:induction false} PositionFollows(s: State, steps: seq<DriverStep>)
    ensures Driven(s, steps).position == LastPosition(s, steps)
    decreases |steps|
  {
    if |steps| > 0 {
      PositionFollows(s, steps[..|steps| - 1]);
    }
  }

  lemma {:induction false} DurationFollows(s: State, steps: seq<DriverStep>)
    ensures Driven(s, steps).duration == LastDuration(s, steps)
    decreases |steps|
  {
    if |steps| > 0 {
      DurationFollows(s, steps[..|steps| - 1]);
    }
  }

  lemma {:induction false} FlagsFollow(s: State, steps: seq<DriverStep>)
    ensures var now := Driven(s, steps);
      now.paused == LastPause(s, steps) && now.buffering == LastCachePause(s, steps)
    decreases |steps|
  {
    if |steps| > 0 {
      FlagsFollow(s, steps[..|steps| - 1]);
    }
  }

  lemma StatusAfter(s: State, step: DriverStep)
    ensures var now := Drive(s, step);
      now.status == if now.buffering then Buffering
                    else if now.paused then Paused
                    else if step.Load? then PlaybackStatus.Loading
                    else if s.status == Idle || step == Changed(CoreIdle(true)) then Idle
                    else Playing
  {
  }

  lemma {:induction false} IdleFollows(s: State, steps: seq<DriverStep>)
    ensures Driven(s, steps).status == Idle <==> IdleSince(s, steps)
    decreases |steps|
  {
    if |steps| > 0 {
      var front, last := steps[..|steps| - 1], steps[|steps| - 1];
      IdleFollows(s, front);
      FlagsFollow(s, steps);
      StatusAfter(Driven(s, front), last);
      hide Drive, LastPause, LastCachePause;
    }
  }

  /**
   Every field of the state is the last value received for it since the last load,
   and the status is playing unless there is a reason for another.
   */
  lemma StateFollows(s: State, steps: seq<DriverStep>)
    ensures var now := Driven(s, steps);
      && now.title == LastTitle(s, steps) && now.position == LastPosition(s, steps)
      && now.duration == LastDuration(s, steps) && now.volume == LastVolume(s, steps)
      && now.paused == LastPause(s, steps) && now.buffering == LastCachePause(s, steps)
      && (|steps| > 0 ==>
            now.status == if now.buffering then Buffering
                          else if now.paused then Paused
                          else if IdleSince(s, steps) then Idle
                          else if steps[|steps| - 1].Load? then PlaybackStatus.Loading
                          else Playing)
  {
    TitleFollows(s, steps);
    VolumeFollows(s, steps);
    PositionFollows(s, steps);
    DurationFollows(s, steps);
    FlagsFollow(s, steps);
    IdleFollows(s, steps);
    if |steps| > 0 {
      StatusAfter(Driven(s, steps[..|steps| - 1]), steps[|steps| - 1]);
    }
    hide Drive, LastTitle, LastPosition, LastDuration, LastVolume, LastPause, LastCachePause, IdleSince;
  }

  /** A level is rounded to the nearest volume. */
  lemma VolumeIsNearest(level: real)
    requires level >= 0.0
    ensures var v := WithProperty(INITIAL_STATE, VolumeLevel(level)).volume as real; v - 0.5 <= level < v + 0.5
  {
  }
}
