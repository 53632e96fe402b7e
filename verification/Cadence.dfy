/**
 The turn of each frame of continuous playback (src/replay_inspection/inspection_state.cpp) as
 the main loop drives it (src/audio_qa_runtime_session.cpp): a frame starts at its turn, and a
 late one restarts the turn. Instants are integers of the steady clock.
 */
module Cadence {
  import opened Arithmetic
  import opened InspectionState

  /** A frame with its start and its completion, or a resume. */
  datatype Event = Frame(started: int, completed: int) | Resume(now: int)

  /** The plain account: the instant the turn was last anchored at and the frames completed
      since. The turn itself is nowhere accumulated. */
  datatype Account = Loose | Anchored(at: int, frames: nat)

  function Turn(a: Account, period: nat): int
    requires a.Anchored?
  {
    a.at + a.frames * period
  }

  /** More than one period after the turn that follows the frame. */
  predicate Late(a: Account, period: nat, completed: int) {
    a.Anchored? && completed - a.at > (a.frames + 2) * period
  }

  /** The period of the take, and whether there is a window: only then a late frame restarts the
      turn. */
  datatype Pace = Pace(period: nat, windowed: bool)

  function Next(a: Account, pace: Pace, e: Event): Account {
    match e
    case Resume(now) => Anchored(now, 0)
    case Frame(_, completed) =>
      if a.Loose? then Anchored(completed, 1)
      else if Late(a, pace.period, completed) && pace.windowed then Anchored(completed, 0)
      else Anchored(a.at, a.frames + 1)
  }

  function After(pace: Pace, events: seq<Event>): Account {
    if events == [] then Loose else Next(After(pace, events[..|events| - 1]), pace, events[|events| - 1])
  }

  /** Every frame starts at its turn or later, and completes after it started. */
  ghost predicate Paced(pace: Pace, events: seq<Event>) {
    forall i :: 0 <= i < |events| && events[i].Frame? ==> Starts(After(pace, events[..i]), pace.period, events[i])
  }

  ghost predicate Starts(a: Account, period: nat, e: Event)
    requires e.Frame?
  {
    (a.Anchored? ==> Turn(a, period) <= e.started) && e.started <= e.completed
  }

  /** The turn and the completion are at most one period apart, either way. */
  predicate Near(turn: int, completed: int, period: nat) {
    turn - period <= completed <= turn + period
  }

  lemma TurnMoves(a: Account, period: nat)
    requires a.Anchored?
    ensures Turn(Anchored(a.at, a.frames + 1), period) == Turn(a, period) + period
    ensures (a.frames + 2) * period == a.frames * period + 2 * period
  {
    Distribute(a.frames, 1, period);
    Distribute(a.frames, 2, period);
  }

  /** The turn is never more than a period ahead of the frame; it is near it exactly unless the
      frame is late and there is no window. */
  lemma StaysNear(a: Account, pace: Pace, e: Event)
    requires e.Frame? && Starts(a, pace.period, e)
    ensures var b := Next(a, pace, e);
            && b.Anchored? && Turn(b, pace.period) - pace.period <= e.completed
            && (Near(Turn(b, pace.period), e.completed, pace.period) <==>
                pace.windowed || !Late(a, pace.period, e.completed))
  {
    if a.Anchored? { TurnMoves(a, pace.period); }
  }

  lemma PrefixOf(pace: Pace, events: seq<Event>, i: nat)
    requires i < |events|
    ensures After(pace, events[..i + 1]) == Next(After(pace, events[..i]), pace, events[i])
  {
    assert events[..i + 1][..i] == events[..i];
  }

  /** After every frame of every paced run the turn is within one period of its completion,
      exactly unless the frame is late and there is no window to restart the turn for. */
  lemma NeverDrifts(pace: Pace, events: seq<Event>, i: nat)
    requires Paced(pace, events) && i < |events| && events[i].Frame?
    ensures var a := After(pace, events[..i + 1]);
            && a.Anchored? && Turn(a, pace.period) - pace.period <= events[i].completed
            && (Near(Turn(a, pace.period), events[i].completed, pace.period) <==>
                pace.windowed || !Late(After(pace, events[..i]), pace.period, events[i].completed))
  {
    PrefixOf(pace, events, i);
    StaysNear(After(pace, events[..i]), pace, events[i]);
  }

  /** Between i and i + n every event is a frame that does not restart the turn. */
  ghost predicate Steady(pace: Pace, events: seq<Event>, i: nat, n: nat) {
    && i + n <= |events|
    && forall j :: i <= j < i + n ==>
                     && events[j].Frame?
                     && !(pace.windowed && Late(After(pace, events[..j]), pace.period, events[j].completed))
  }

  /** A run of n frames moves the turn exactly n periods if none is late, and without a window
      even then: nothing accumulates. */
  lemma ExactCadence(pace: Pace, events: seq<Event>, i: nat, n: nat)
    requires Steady(pace, events, i, n) && After(pace, events[..i]).Anchored?
    ensures var a, b := After(pace, events[..i]), After(pace, events[..i + n]);
            b == Anchored(a.at, a.frames + n) && Turn(b, pace.period) == Turn(a, pace.period) + n * pace.period
  {
    CountsFrames(pace, events, i, n);
    Distribute(After(pace, events[..i]).frames, n, pace.period);
  }

  lemma {:induction false} CountsFrames(pace: Pace, events: seq<Event>, i: nat, n: nat)
    requires Steady(pace, events, i, n) && After(pace, events[..i]).Anchored?
    ensures var a := After(pace, events[..i]); After(pace, events[..i + n]) == Anchored(a.at, a.frames + n)
  {
    if n > 0 {
      var j := i + n - 1;
      CountsFrames(pace, events, i, n - 1);
      OneSteady(After(pace, events[..j]), pace, events[j]);
      PrefixOf(pace, events, j);
    }
  }

  lemma OneSteady(a: Account, pace: Pace, e: Event)
    requires a.Anchored? && e.Frame? && !(pace.windowed && Late(a, pace.period, e.completed))
    ensures Next(a, pace, e) == Anchored(a.at, a.frames + 1)
  {
  }

  /** So the frames of such a run with none late keep the recorded rate within one period,
      however many. */
  lemma KeepsTheRate(pace: Pace, events: seq<Event>, i: nat, n: nat)
    requires Paced(pace, events) && n > 0
    requires Steady(pace, events, i, n) && After(pace, events[..i]).Anchored?
    requires !Late(After(pace, events[..i + n - 1]), pace.period, events[i + n - 1].completed)
    ensures Near(Turn(After(pace, events[..i]), pace.period) + n * pace.period,
                 events[i + n - 1].completed, pace.period)
  {
    ExactCadence(pace, events, i, n);
    NeverDrifts(pace, events, i + n - 1);
  }

  class PlaybackCadence {
    const period: nat
    var next: int
    var anchored: bool

    /** The accumulated turn is the one of the account. */
    ghost predicate Follows(a: Account)
      reads this
    {
      anchored == a.Anchored? && (anchored ==> next == Turn(a, period))
    }

    constructor (period: nat, now: int)
      ensures this.period == period && next == now && !anchored && Follows(Loose)
    {
      this.period, next, anchored := period, now, false;
    }

    method Restart(now: int)
      modifies this
      ensures anchored && next == now && Follows(Anchored(now, 0))
    {
      next := now;
      anchored := true;
    }

    /** A late frame still moves the turn by one period; restarting it is up to the caller. */
    method FrameCompleted(completed: int, ghost a: Account) returns (late: bool)
      requires Follows(a)
      modifies this
      ensures anchored && late == Late(a, period, completed)
      ensures a.Loose? ==> Follows(Anchored(completed, 1))
      ensures a.Anchored? ==> Follows(Anchored(a.at, a.frames + 1))
    {
      if !anchored {
        anchored := true;
        next := completed + period;
        return false;
      }
      TurnMoves(a, period);
      next := next + period;
      return completed > next + period;
    }

    /** One turn of the main loop: with a window, a late frame restarts the turn where it
        completed. */
    method Play(e: Event, windowed: bool, ghost a: Account) returns (late: bool)
      requires Follows(a)
      modifies this
      ensures Follows(Next(a, Pace(period, windowed), e))
      ensures late == (e.Frame? && Late(a, period, e.completed))
    {
      match e
      case Resume(now) =>
        Restart(now);
        late := false;
      case Frame(_, completed) =>
        late := FrameCompleted(completed, a);
        if late && windowed { Restart(completed); }
    }
  }

  /** Whether event i of a run is a late frame. */
  ghost predicate LateAt(pace: Pace, events: seq<Event>, i: nat)
    requires i < |events|
  {
    events[i].Frame? && Late(After(pace, events[..i]), pace.period, events[i].completed)
  }

  /** Over every run the accumulated turn is the plain account's; so with a window it stays
      within one period of each completed frame. */
  method Run(cadence: PlaybackCadence, windowed: bool, events: seq<Event>) returns (late: seq<bool>)
    requires !cadence.anchored && Paced(Pace(cadence.period, windowed), events)
    modifies cadence
    ensures cadence.Follows(After(Pace(cadence.period, windowed), events))
    ensures |late| == |events|
    ensures forall i :: 0 <= i < |events| ==> late[i] == LateAt(Pace(cadence.period, windowed), events, i)
    ensures windowed && events != [] && events[|events| - 1].Frame? ==>
              Near(cadence.next, events[|events| - 1].completed, cadence.period)
  {
    ghost var pace := Pace(cadence.period, windowed);
    late := [];
    for i := 0 to |events|
      invariant cadence.Follows(After(pace, events[..i]))
      invariant |late| == i
      invariant forall j :: 0 <= j < i ==> late[j] == LateAt(pace, events, j)
    {
      var l := cadence.Play(events[i], windowed, After(pace, events[..i]));
      PrefixOf(pace, events, i);
      late := late + [l];
    }
    assert events[..|events|] == events;
    if windowed && events != [] && events[|events| - 1].Frame? {
      NeverDrifts(pace, events, |events| - 1);
    }
  }

  /** A pause already asked for is served at once; playback waits for the turn, so the frames of
      a run are paced. */
  function StartFrameNow(phase: Phase, now: int, due: int): (r: bool)
    ensures phase == Playing ==> (r <==> due <= now)
    ensures phase == Pausing ==> r
    ensures r ==> phase == Playing || phase == Pausing
  {
    if phase == Pausing then true else phase == Playing && now >= due
  }
}
