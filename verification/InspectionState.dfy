/**
 The inspection state machine of a replayed take (src/replay_inspection/inspection_state.cpp).

 `Controller` and the `On…` functions are the transition table; the class
 `InspectionController` updates fields in place and is proved to follow it. The theorems are
 about every event sequence a disciplined adapter can send.
 */
module InspectionState {
  import opened Options

  datatype Phase =
    Preparing | Playing | Pausing | Paused | Recovering | Interrupted | Closing | Failed

  datatype KeyAction = Toggle | Left | Right | Info

  datatype FrameActivity = BetweenFrames | Producing

  datatype RecoveryOutcome = Presented | FailedRestored | FailedUnrecoverable

  datatype Notice = NotAvailable | Busy | RecoveryFailed | WasInterrupted | NoNextFrame

  datatype Command =
    | PresentFrame(frame: nat)
    | RecoverFrame(frame: nat)
    | PauseAudio(frame: nat)
    | ResumeAudio(frame: nat)
    | Notify(notice: Notice)
    | ToggleDebug(frame: nat)
    | InspectionEvent(frame: nat, control: string)
    | ConfirmLinearResult(frame: nat)
    | AdvanceTake(frame: nat)
    | FinishTraversal(frame: nat)
    | Close(frame: nat)

  datatype Controller = Controller(
    frames: nat,
    lastTake: bool,
    phase: Phase,
    position: Option<nat>,
    target: Option<nat>,
    debugVisible: bool,
    inspected: bool,
    endedNaturally: bool,
    takeEndPending: bool,
    cause: string)
  {
    /** The position every command names: an absent one reads as 0. */
    function At(): nat { position.Or(0) }

    function NextFrame(): nat { if position.Some? then position.value + 1 else 0 }

    predicate Over() { phase.Closing? || phase.Failed? }

    predicate MayRunFrame() { phase.Playing? && !takeEndPending }

    predicate AtTakeEnd() { phase.Playing? && takeEndPending }

    /** The adapter's loop starts a frame: playback, or the frame a pending pause waits for. */
    predicate StartsFrame() { MayRunFrame() || phase.Pausing? }
  }

  datatype Reaction = Reaction(next: Controller, commands: seq<Command>)

  function Initial(frames: nat, lastTake: bool): Controller {
    Controller(frames, lastTake, Preparing, None, None, false, false, false, false, "")
  }

  function Still(c: Controller): Reaction { Reaction(c, []) }

  function OnPrepared(c: Controller): Reaction {
    Still(if c.phase.Preparing? then c.(phase := Playing) else c)
  }

  function PausedAt(c: Controller, frame: nat): Reaction {
    Reaction(c.(phase := Paused, position := Some(frame)),
             [PresentFrame(frame), PauseAudio(frame), InspectionEvent(frame, "pause")])
  }

  function OnKey(c: Controller, action: KeyAction, activity: FrameActivity): Reaction {
    if c.Over() then Still(c)
    else if action.Info? then
      if c.phase.Preparing? then Still(c)
      else Reaction(c.(debugVisible := !c.debugVisible), [ToggleDebug(c.At())])
    else match c.phase
      case Playing =>
        if !action.Toggle? then Still(c)
        else if activity.BetweenFrames? && c.position.Some? then PausedAt(c, c.position.value)
        else Still(c.(phase := Pausing))
      case Recovering => Reaction(c, [Notify(Busy)])
      case Interrupted => Reaction(c, if action.Toggle? then [Notify(WasInterrupted)] else [])
      case Paused => if action.Toggle? then OnResume(c) else OnStep(c, action.Left?)
      case _ => Reaction(c, if action.Toggle? then [Notify(NotAvailable)] else [])
  }

  function OnResume(c: Controller): Reaction {
    if c.At() + 1 < c.frames && !c.endedNaturally then
      Reaction(c.(phase := Playing),
               [ResumeAudio(c.At() + 1), InspectionEvent(c.At(), "resume")])
    else if !c.lastTake then
      Reaction(c.(phase := Closing), [InspectionEvent(c.At(), "advance_take"), AdvanceTake(c.At())])
    else
      Reaction(c, [Notify(NoNextFrame)])
  }

  function OnStep(c: Controller, back: bool): Reaction {
    if (if back then c.At() == 0 else c.At() + 1 >= c.frames) then Still(c)
    else
      var target := if back then c.At() - 1 else c.At() + 1;
      Reaction(c.(phase := Recovering, target := Some(target), inspected := true),
               [RecoverFrame(target), InspectionEvent(target, if back then "step_back" else "step_forward")])
  }

  function OnFrameCompleted(c: Controller, frame: nat): Reaction {
    if !c.phase.Playing? && !c.phase.Pausing? then Still(c)
    else if frame + 1 < c.frames then
      if c.phase.Pausing? then PausedAt(c, frame) else Still(c.(position := Some(frame)))
    else
      var ended := c.(position := Some(frame), endedNaturally := true);
      if c.phase.Pausing? then PausedAt(ended, frame)
      else if !c.lastTake then Still(ended.(takeEndPending := true))
      else Reaction(ended.(phase := Paused),
                    [ConfirmLinearResult(frame), PresentFrame(frame), PauseAudio(frame)])
  }

  function OnRecoveryFinished(c: Controller, outcome: RecoveryOutcome): Reaction {
    if !c.phase.Recovering? || c.target.None? then Still(c)
    else match outcome
      case Presented =>
        Reaction(c.(phase := Paused, position := c.target, target := None),
                 [PresentFrame(c.target.value)])
      case FailedRestored =>
        Reaction(c.(phase := Paused, target := None), [Notify(RecoveryFailed), PresentFrame(c.At())])
      case FailedUnrecoverable =>
        Reaction(c.(phase := Failed, target := None), [FinishTraversal(c.At())])
  }

  function OnInterrupted(c: Controller, cause: string): Reaction {
    if c.Over() then Still(c)
    else Reaction(c.(phase := Interrupted, target := None, cause := cause), [InspectionEvent(c.At(), "interrupted")])
  }

  function OnRecovered(c: Controller): Reaction {
    if !c.phase.Interrupted? then Still(c)
    else Reaction(c.(phase := Paused), [InspectionEvent(c.At(), "recovered"), PresentFrame(c.At())])
  }

  function OnTakeSlot(c: Controller): Reaction {
    if !c.AtTakeEnd() then Still(c)
    else Reaction(c.(phase := Closing, takeEndPending := false), [AdvanceTake(c.At())])
  }

  function OnCancel(c: Controller): Reaction {
    Reaction(c.(phase := Closing, target := None), [Close(c.At())])
  }

  // ---------------------------------------------------------------------------------------
  // The object of the source: the same machine, updating its fields in place.
  // ---------------------------------------------------------------------------------------

  class InspectionController {
    const frames: nat
    const lastTake: bool
    var phase: Phase
    var position: Option<nat>
    var target: Option<nat>
    var debugVisible: bool
    var inspected: bool
    var endedNaturally: bool
    var takeEndPending: bool
    var cause: string

    ghost function View(): Controller
      reads this
    {
      Controller(frames, lastTake, phase, position, target,
                 debugVisible, inspected, endedNaturally, takeEndPending, cause)
    }

    constructor (frames: nat, lastTake: bool)
      ensures View() == Initial(frames, lastTake)
    {
      this.frames, this.lastTake := frames, lastTake;
      phase, position, target := Preparing, None, None;
      debugVisible, inspected, endedNaturally, takeEndPending, cause := false, false, false, false, "";
    }

    method Prepared()
      modifies this
      ensures View() == OnPrepared(old(View())).next
    {
      if phase == Preparing { phase := Playing; }
    }

    method PauseAt(frame: nat) returns (commands: seq<Command>)
      modifies this
      ensures Reaction(View(), commands) == PausedAt(old(View()), frame)
    {
      phase := Paused;
      position := Some(frame);
      commands := [PresentFrame(frame), PauseAudio(frame)];
      commands := commands + [InspectionEvent(frame, "pause")];
    }

    method Key(action: KeyAction, activity: FrameActivity) returns (commands: seq<Command>)
      modifies this
      ensures Reaction(View(), commands) == OnKey(old(View()), action, activity)
    {
      commands := [];
      if phase == Closing || phase == Failed { return; }
      if action == Info {
        if phase == Preparing { return; }
        debugVisible := !debugVisible;
        return [ToggleDebug(position.Or(0))];
      }
      match phase {
        case Playing =>
          if action != Toggle { return; }
          if activity == BetweenFrames && position.Some? {
            commands := PauseAt(position.value);
            return;
          }
          phase := Pausing;
        case Recovering =>
          commands := [Notify(Busy)];
        case Interrupted =>
          if action == Toggle { commands := [Notify(WasInterrupted)]; }
        case Paused =>
          if action == Toggle {
            commands := Resume();
          } else {
            commands := Step(action == Left);
          }
        case _ =>
          if action == Toggle { commands := [Notify(NotAvailable)]; }
      }
    }

    /** The toggle of a pause: on with the take, on to the next take, or nowhere. */
    method Resume() returns (commands: seq<Command>)
      modifies this
      ensures Reaction(View(), commands) == OnResume(old(View()))
    {
      var frame := position.Or(0);
      if frame + 1 < frames && !endedNaturally {
        phase := Playing;
        commands := [ResumeAudio(frame + 1)] + [InspectionEvent(frame, "resume")];
      } else if !lastTake {
        phase := Closing;
        commands := [InspectionEvent(frame, "advance_take")] + [AdvanceTake(frame)];
      } else {
        commands := [Notify(NoNextFrame)];
      }
    }

    method Step(back: bool) returns (commands: seq<Command>)
      modifies this
      ensures Reaction(View(), commands) == OnStep(old(View()), back)
    {
      var frame := position.Or(0);
      if (back && frame == 0) || (!back && frame + 1 >= frames) { return []; }
      var goal := if back then frame - 1 else frame + 1;
      target := Some(goal);
      phase := Recovering;
      inspected := true;
      commands := [RecoverFrame(goal)]
      + [InspectionEvent(goal, if back then "step_back" else "step_forward")];
    }

    method FrameCompleted(frame: nat) returns (commands: seq<Command>)
      modifies this
      ensures Reaction(View(), commands) == OnFrameCompleted(old(View()), frame)
    {
      commands := [];
      if phase != Playing && phase != Pausing { return; }
      var pausePending := phase == Pausing;
      position := Some(frame);
      if frame + 1 < frames {
        if pausePending { commands := PauseAt(frame); }
        return;
      }
      endedNaturally := true;
      if pausePending {
        commands := PauseAt(frame);
        return;
      }
      if !lastTake {
        takeEndPending := true;
        return;
      }
      phase := Paused;
      commands := [ConfirmLinearResult(frame), PresentFrame(frame), PauseAudio(frame)];
    }

    method RecoveryFinished(outcome: RecoveryOutcome) returns (commands: seq<Command>)
      modifies this
      ensures Reaction(View(), commands) == OnRecoveryFinished(old(View()), outcome)
    {
      if phase != Recovering || target.None? { return []; }
      var goal := target.value;
      target := None;
      match outcome {
        case Presented =>
          phase := Paused;
          position := Some(goal);
          commands := [PresentFrame(goal)];
        case FailedRestored =>
          phase := Paused;
          commands := [Notify(RecoveryFailed), PresentFrame(position.Or(0))];
        case FailedUnrecoverable =>
          phase := Failed;
          commands := [FinishTraversal(position.Or(0))];
      }
    }

    method PresentationInterrupted(cause: string) returns (commands: seq<Command>)
      modifies this
      ensures Reaction(View(), commands) == OnInterrupted(old(View()), cause)
    {
      if phase == Closing || phase == Failed { return []; }
      phase := Interrupted;
      target := None;
      this.cause := cause;
      commands := [InspectionEvent(position.Or(0), "interrupted")];
    }

    method PresentationRecovered() returns (commands: seq<Command>)
      modifies this
      ensures Reaction(View(), commands) == OnRecovered(old(View()))
    {
      if phase != Interrupted { return []; }
      phase := Paused;
      commands := [InspectionEvent(position.Or(0), "recovered")] + [PresentFrame(position.Or(0))];
    }

    method TakeSlotReached() returns (commands: seq<Command>)
      modifies this
      ensures Reaction(View(), commands) == OnTakeSlot(old(View()))
    {
      if !(phase == Playing && takeEndPending) { return []; }
      takeEndPending := false;
      phase := Closing;
      commands := [AdvanceTake(position.Or(0))];
    }

    method Cancel() returns (commands: seq<Command>)
      modifies this
      ensures Reaction(View(), commands) == OnCancel(old(View()))
    {
      phase := Closing;
      target := None;
      commands := [Close(position.Or(0))];
    }
  }

  // ---------------------------------------------------------------------------------------
  // Every run of events.
  // ---------------------------------------------------------------------------------------

  datatype Event =
    | Prepared
    | KeyPressed(action: KeyAction, activity: FrameActivity)
    | FrameDone(frame: nat)
    | TakeSlot
    | RecoveryDone(outcome: RecoveryOutcome)
    | PresentationLost(cause: string)
    | PresentationBack
    | Cancelled

  function React(c: Controller, e: Event): Reaction {
    match e
    case Prepared => OnPrepared(c)
    case KeyPressed(action, activity) => OnKey(c, action, activity)
    case FrameDone(frame) => OnFrameCompleted(c, frame)
    case TakeSlot => OnTakeSlot(c)
    case RecoveryDone(outcome) => OnRecoveryFinished(c, outcome)
    case PresentationLost(cause) => OnInterrupted(c, cause)
    case PresentationBack => OnRecovered(c)
    case Cancelled => OnCancel(c)
  }

  /** A completed frame is the next one, of the take, and was started; `Producing` is only
      claimed while a frame may run. */
  predicate Allowed(c: Controller, e: Event) {
    match e
    case FrameDone(frame) => c.StartsFrame() && frame == c.NextFrame() && frame < c.frames
    case KeyPressed(_, activity) => activity.Producing? ==> c.MayRunFrame()
    case _ => true
  }

  /** The controller after a run, and every command of the run in order. */
  function Run(c: Controller, events: seq<Event>): Reaction {
    if events == [] then Still(c)
    else
      var before := Run(c, events[..|events| - 1]);
      var last := React(before.next, events[|events| - 1]);
      Reaction(last.next, before.commands + last.commands)
  }

  predicate Disciplined(c: Controller, events: seq<Event>) {
    forall i :: 0 <= i < |events| ==> Allowed(Run(c, events[..i]).next, events[i])
  }

  /** What every reachable controller satisfies. */
  predicate Inv(c: Controller) {
    && (c.target.Some? <==> c.phase.Recovering?)
    && (c.target.Some? ==>
          c.target.value < c.frames && (c.target.value == c.At() + 1 || c.target.value + 1 == c.At()))
    && (c.position.Some? ==> c.position.value < c.frames)
    && (c.takeEndPending ==> c.endedNaturally && !c.lastTake)
    && (c.AtTakeEnd() ==> c.position == Some(c.frames - 1))
    && (c.endedNaturally ==> !c.StartsFrame() && !c.phase.Preparing? && c.position.Some?)
    && (c.phase.Preparing? ==> c.position.None?)
    && (c.StartsFrame() && c.frames > 0 ==> c.NextFrame() < c.frames)
  }

  predicate IsPause(c: Command) { c.PauseAudio? }
  predicate IsResume(c: Command) { c.ResumeAudio? }
  predicate IsConfirm(c: Command) { c.ConfirmLinearResult? }
  predicate IsAdvance(c: Command) { c.AdvanceTake? }

  predicate Never(trace: seq<Command>, p: Command -> bool) {
    forall i :: 0 <= i < |trace| ==> !p(trace[i])
  }

  predicate AtMostOnce(trace: seq<Command>, p: Command -> bool) {
    forall i, j :: 0 <= i < j < |trace| ==> !(p(trace[i]) && p(trace[j]))
  }

  /** Whether the audio runs after the trace, if it ran before it. */
  function Sounding(before: bool, trace: seq<Command>): bool
    decreases trace
  {
    if trace == [] then before
    else Sounding(IsResume(trace[0]) || (before && !IsPause(trace[0])), trace[1..])
  }

  /** Every pause of the trace stops audio that runs. */
  predicate PausesSound(before: bool, trace: seq<Command>)
    decreases trace
  {
    trace == [] ||
    ((IsPause(trace[0]) ==> before) &&
     PausesSound(IsResume(trace[0]) || (before && !IsPause(trace[0])), trace[1..]))
  }

  lemma {:induction false} AppendTrace(before: bool, a: seq<Command>, b: seq<Command>)
    ensures Sounding(before, a + b) == Sounding(Sounding(before, a), b)
    ensures PausesSound(before, a + b) <==> PausesSound(before, a) && PausesSound(Sounding(before, a), b)
    decreases a
  {
    if a == [] {
      assert a + b == b;
    } else {
      assert (a + b)[1..] == a[1..] + b;
      AppendTrace(IsResume(a[0]) || (before && !IsPause(a[0])), a[1..], b);
    }
  }

  /** In such a trace, a first pause of stopped audio has a resume before it, and two pauses
      have a resume between them. */
  lemma {:induction false} ResumeBetweenPauses(before: bool, trace: seq<Command>, j: nat)
    requires PausesSound(before, trace) && j < |trace| && IsPause(trace[j])
    ensures before || exists k :: 0 <= k < j && IsResume(trace[k])
    ensures forall i :: 0 <= i < j && IsPause(trace[i]) ==> exists k :: i < k < j && IsResume(trace[k])
    decreases trace
  {
    if j > 0 {
      var rest := trace[1..];
      var now := IsResume(trace[0]) || (before && !IsPause(trace[0]));
      assert rest[j - 1] == trace[j];
      ResumeBetweenPauses(now, rest, j - 1);
      if !now {
        var k :| 0 <= k < j - 1 && IsResume(rest[k]);
        assert IsResume(trace[k + 1]);
      }
      forall i | 0 <= i < j && IsPause(trace[i]) ensures exists k :: i < k < j && IsResume(trace[k]) {
        if i > 0 {
          assert IsPause(rest[i - 1]);
          var k :| i - 1 < k < j - 1 && IsResume(rest[k]);
          assert IsResume(trace[k + 1]);
        }
      }
    }
  }

  /** The few commands of one reaction: at most one pause, and only of running audio. */
  lemma {:induction false} FewPauses(before: bool, trace: seq<Command>)
    requires AtMostOnce(trace, IsPause) && (before || Never(trace, IsPause))
    ensures PausesSound(before, trace)
    ensures Never(trace, IsPause) && (before || !Never(trace, IsResume)) ==> Sounding(before, trace)
    decreases trace
  {
    if trace != [] {
      var rest := trace[1..];
      var now := IsResume(trace[0]) || (before && !IsPause(trace[0]));
      assert forall i :: 0 <= i < |rest| ==> rest[i] == trace[i + 1];
      assert !now ==> IsPause(trace[0]) || Never(rest, IsPause);
      FewPauses(now, rest);
    }
  }

  /** The phases whose audio runs. */
  predicate Audible(c: Controller) {
    c.phase.Preparing? || c.phase.Playing? || c.phase.Pausing?
  }

  /** What one reaction may do: the state it leads to and the orders it gives. */
  predicate Sound(c: Controller, r: Reaction) {
    && Inv(r.next)
    && r.next.frames == c.frames && r.next.lastTake == c.lastTake
    && (c.endedNaturally ==> r.next.endedNaturally)
    && (c.phase.Closing? ==> r.next.phase.Closing?)
    && (c.Over() ==> r.next.Over() && (r.commands == [] || r.commands == [Close(c.At())]))
    && AtMostOnce(r.commands, IsPause)
    && (Never(r.commands, IsPause) || (Audible(c) && !Audible(r.next)))
    && (Audible(r.next) ==> Audible(c) || !Never(r.commands, IsResume))
    && AtMostOnce(r.commands, IsConfirm)
    && (Never(r.commands, IsConfirm) || (!c.endedNaturally && r.next.endedNaturally))
    && AtMostOnce(r.commands, IsAdvance)
    && (Never(r.commands, IsAdvance) || (!c.phase.Closing? && r.next.phase.Closing?))
  }

  lemma ResumeIsSound(c: Controller)
    requires Inv(c) && c.phase.Paused?
    ensures Sound(c, OnResume(c))
  {
    var r := OnResume(c);
    if r.next.phase.Playing? { assert IsResume(r.commands[0]); }
  }

  lemma PauseIsSound(c: Controller)
    requires Inv(c) && c.phase.Playing? && c.position.Some?
    ensures Sound(c, PausedAt(c, c.position.value))
  {
  }

  lemma NavigationIsSound(c: Controller, back: bool)
    requires Inv(c) && c.phase.Paused?
    ensures Sound(c, OnStep(c, back))
  {
  }

  /** A reaction that gives no order but a notice, and leaves the machine where it was. */
  lemma NoticeIsSound(c: Controller, r: Reaction)
    requires Inv(c) && r.next == c && (r.commands == [] || (!c.Over() && |r.commands| == 1 && r.commands[0].Notify?))
    ensures Sound(c, r)
  {
  }

  lemma KeyIsSound(c: Controller, action: KeyAction, activity: FrameActivity)
    requires Inv(c) && (activity.Producing? ==> c.MayRunFrame())
    ensures Sound(c, OnKey(c, action, activity))
  {
    if c.Over() || action.Info? {
    } else if c.phase.Paused? {
      if action.Toggle? { ResumeIsSound(c); } else { NavigationIsSound(c, action.Left?); }
    } else if c.phase.Playing? && action.Toggle? {
      if activity.BetweenFrames? && c.position.Some? { PauseIsSound(c); }
    } else {
      NoticeIsSound(c, OnKey(c, action, activity));
    }
  }

  lemma FrameIsSound(c: Controller, frame: nat)
    requires Inv(c) && c.StartsFrame() && frame == c.NextFrame() && frame < c.frames
    ensures Sound(c, OnFrameCompleted(c, frame))
  {
    if c.phase.Pausing? {
      PausedFrameIsSound(c, frame);
    } else if frame + 1 == c.frames && c.lastTake {
      LastFrameIsSound(c, frame);
    }
  }

  /** A pause waiting for its frame is served by it. */
  lemma PausedFrameIsSound(c: Controller, frame: nat)
    requires Inv(c) && c.phase.Pausing? && frame == c.NextFrame() && frame < c.frames
    ensures Sound(c, OnFrameCompleted(c, frame))
  {
    var ended := if frame + 1 < c.frames then c else c.(position := Some(frame), endedNaturally := true);
    assert OnFrameCompleted(c, frame) == PausedAt(ended, frame);
  }

  /** The last frame of the last take confirms the linear result. */
  lemma LastFrameIsSound(c: Controller, frame: nat)
    requires Inv(c) && c.phase.Playing? && c.StartsFrame() && c.lastTake
    requires frame == c.NextFrame() && frame + 1 == c.frames
    ensures Sound(c, OnFrameCompleted(c, frame))
  {
  }

  lemma RecoveryIsSound(c: Controller, outcome: RecoveryOutcome)
    requires Inv(c)
    ensures Sound(c, OnRecoveryFinished(c, outcome))
  {
  }

  /** One allowed event keeps the invariant and orders nothing out of turn. */
  lemma StepIsSound(c: Controller, e: Event)
    requires Inv(c) && Allowed(c, e)
    ensures Sound(c, React(c, e))
  {
    match e
    case KeyPressed(action, activity) => KeyIsSound(c, action, activity);
    case FrameDone(frame) => FrameIsSound(c, frame);
    case RecoveryDone(outcome) => RecoveryIsSound(c, outcome);
    case _ => OtherIsSound(c, e);
  }

  lemma OtherIsSound(c: Controller, e: Event)
    requires Inv(c) && !e.KeyPressed? && !e.FrameDone? && !e.RecoveryDone?
    ensures Sound(c, React(c, e))
  {
    if e.PresentationLost? { LossIsSound(c, e.cause); }
  }

  lemma LossIsSound(c: Controller, cause: string)
    requires Inv(c)
    ensures Sound(c, OnInterrupted(c, cause))
  {
  }

  /** The same without the orders: the invariant stays, and the position only moves when a
      frame completes or a recovery is presented. */
  lemma StepKeepsPlace(c: Controller, e: Event)
    requires Inv(c) && Allowed(c, e)
    ensures Inv(React(c, e).next)
    ensures React(c, e).next.frames == c.frames
    ensures e.FrameDone? ==> React(c, e).next.position == Some(e.frame)
    ensures e == RecoveryDone(Presented) && c.phase.Recovering? ==> React(c, e).next.position == c.target
    ensures !e.FrameDone? && !(e == RecoveryDone(Presented) && c.phase.Recovering?) ==>
              React(c, e).next.position == c.position
    ensures c.Over() ==> React(c, e).next.Over()
    ensures e == RecoveryDone(FailedUnrecoverable) && c.phase.Recovering? ==> React(c, e).next.Over()
  {
    StepIsSound(c, e);
    PositionMoves(c, e);
  }

  lemma PositionMoves(c: Controller, e: Event)
    requires Inv(c) && Allowed(c, e)
    ensures React(c, e).next.position ==
            if e.FrameDone? then Some(e.frame)
            else if e == RecoveryDone(Presented) && c.phase.Recovering? then c.target
            else c.position
  {
    if e.KeyPressed? { KeysStayPut(c, e.action, e.activity); }
  }

  lemma KeysStayPut(c: Controller, action: KeyAction, activity: FrameActivity)
    ensures OnKey(c, action, activity).next.position == c.position
  {
  }

  lemma DisciplinedPrefix(c: Controller, events: seq<Event>, n: nat)
    requires Disciplined(c, events) && n <= |events|
    ensures Disciplined(c, events[..n])
  {
    forall i | 0 <= i < n ensures Allowed(Run(c, events[..n][..i]).next, events[..n][i]) {
      assert events[..n][..i] == events[..i];
    }
  }

  /** How the trace so far and the controller constrain each other. */
  predicate TraceInv(c: Controller, trace: seq<Command>) {
    && PausesSound(true, trace)
    && (Audible(c) ==> Sounding(true, trace))
    && AtMostOnce(trace, IsConfirm) && (Never(trace, IsConfirm) || c.endedNaturally)
    && AtMostOnce(trace, IsAdvance) && (Never(trace, IsAdvance) || c.phase.Closing?)
  }

  lemma TraceStep(c: Controller, trace: seq<Command>, r: Reaction)
    requires TraceInv(c, trace) && Sound(c, r)
    ensures TraceInv(r.next, trace + r.commands)
  {
    AppendTrace(true, trace, r.commands);
    FewPauses(Sounding(true, trace), r.commands);
  }

  lemma {:induction false} RunIsSound(c: Controller, events: seq<Event>)
    requires Inv(c) && Disciplined(c, events) && Audible(c) && !c.endedNaturally
    ensures Inv(Run(c, events).next)
    ensures TraceInv(Run(c, events).next, Run(c, events).commands)
    ensures Run(c, events).next.frames == c.frames && Run(c, events).next.lastTake == c.lastTake
  {
    if events != [] {
      var before := Run(c, events[..|events| - 1]);
      DisciplinedPrefix(c, events, |events| - 1);
      RunIsSound(c, events[..|events| - 1]);
      var last := React(before.next, events[|events| - 1]);
      StepIsSound(before.next, events[|events| - 1]);
      TraceStep(before.next, before.commands, last);
    }
  }

  /** Over every disciplined run: a target exists exactly while recovering, is a frame of the
      take and one step from the position; a frame that may start is one of the take. */
  lemma ReachableStates(frames: nat, lastTake: bool, events: seq<Event>)
    requires frames > 0 && Disciplined(Initial(frames, lastTake), events)
    ensures var c := Run(Initial(frames, lastTake), events).next;
            && (c.target.Some? <==> c.phase.Recovering?)
            && (c.target.Some? ==> c.target.value < frames
                                   && (c.target.value == c.At() + 1 || c.target.value + 1 == c.At()))
            && (c.StartsFrame() ==> c.NextFrame() < frames && !c.endedNaturally)
  {
    RunIsSound(Initial(frames, lastTake), events);
  }

  /** Over every disciplined run: the linear result is confirmed and the take advanced at most
      once each, and the audio is resumed between any two pauses. */
  lemma ReachableTraces(frames: nat, lastTake: bool, events: seq<Event>)
    requires Disciplined(Initial(frames, lastTake), events)
    ensures var trace := Run(Initial(frames, lastTake), events).commands;
            && AtMostOnce(trace, IsConfirm)
            && AtMostOnce(trace, IsAdvance)
            && forall i, j :: 0 <= i < j < |trace| && IsPause(trace[i]) && IsPause(trace[j]) ==>
                 exists k :: i < k < j && IsResume(trace[k])
  {
    RunIsSound(Initial(frames, lastTake), events);
    var trace := Run(Initial(frames, lastTake), events).commands;
    forall j | 0 <= j < |trace| && IsPause(trace[j])
      ensures forall i :: 0 <= i < j && IsPause(trace[i]) ==> exists k :: i < k < j && IsResume(trace[k])
    {
      ResumeBetweenPauses(true, trace, j);
    }
  }

  /** What a run still orders after an earlier point of it: nothing starts after the natural
      end, and after the take closed or failed only `close` is ordered. */
  ghost predicate Ends(early: Reaction, late: Reaction) {
    && early.commands <= late.commands
    && (early.next.endedNaturally ==> late.next.endedNaturally && !late.next.StartsFrame())
    && (early.next.Over() ==> late.next.Over() && OnlyCloses(late.commands, |early.commands|))
    && (early.next.phase.Closing? ==> late.next.phase.Closing?)
  }

  ghost predicate OnlyCloses(commands: seq<Command>, from: nat) {
    forall i :: from <= i < |commands| ==> commands[i].Close?
  }

  lemma EndsStep(early: Reaction, before: Reaction, r: Reaction)
    requires Ends(early, before) && Sound(before.next, r)
    ensures Ends(early, Reaction(r.next, before.commands + r.commands))
  {
  }

  /** Once the take ended naturally no frame ever starts again, and once it closes or fails
      only `close` is ordered. */
  lemma {:induction false} NothingAfterTheEnd(frames: nat, lastTake: bool, events: seq<Event>, n: nat)
    requires Disciplined(Initial(frames, lastTake), events) && n <= |events|
    ensures Ends(Run(Initial(frames, lastTake), events[..n]), Run(Initial(frames, lastTake), events))
  {
    var c := Initial(frames, lastTake);
    if n == |events| {
      assert events[..n] == events;
      RunIsSound(c, events);
    } else {
      var shorter := events[..|events| - 1];
      DisciplinedPrefix(c, events, |events| - 1);
      assert shorter[..n] == events[..n];
      NothingAfterTheEnd(frames, lastTake, shorter, n);
      LastEventEnds(c, events, Run(c, events[..n]));
    }
  }

  lemma LastEventEnds(c: Controller, events: seq<Event>, early: Reaction)
    requires Inv(c) && Audible(c) && !c.endedNaturally && events != [] && Disciplined(c, events)
    requires Ends(early, Run(c, events[..|events| - 1]))
    ensures Ends(early, Run(c, events))
  {
    var shorter, e := events[..|events| - 1], events[|events| - 1];
    DisciplinedPrefix(c, events, |events| - 1);
    RunIsSound(c, shorter);
    StepIsSound(Run(c, shorter).next, e);
    EndsStep(early, Run(c, shorter), React(Run(c, shorter).next, e));
  }
}
