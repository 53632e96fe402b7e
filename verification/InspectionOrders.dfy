/**
 What the inspection state machine (src/replay_inspection/inspection_state.cpp) orders and where
 it goes, said once per order and once per phase: exactly when each order is given, over one event
 and over every disciplined run.
 */
module InspectionOrders {
  import opened Collections
  import opened InspectionState
  import opened Options

  // ---------------------------------------------------------------------------------------
  // What an event asks of a controller.
  // ---------------------------------------------------------------------------------------

  predicate Key(e: Event, action: KeyAction) { e.KeyPressed? && e.action == action }

  /** Playback pauses at frame f: a pause was waiting for it, or none is under way and f is the
      last one. */
  predicate PausesAt(c: Controller, e: Event, f: nat) {
    || (c.phase.Pausing? && e == FrameDone(f))
    || (c.phase.Playing? && e == KeyPressed(Toggle, BetweenFrames) && c.position == Some(f))
  }

  /** The last frame of the last take ends it. */
  predicate EndsLastTake(c: Controller, e: Event, f: nat) {
    c.phase.Playing? && c.lastTake && e == FrameDone(f) && f + 1 == c.frames
  }

  /** There is a frame to go on with. */
  predicate CanGoOn(c: Controller) { c.At() + 1 < c.frames && !c.endedNaturally }

  predicate Resumes(c: Controller, e: Event) { c.phase.Paused? && Key(e, Toggle) && CanGoOn(c) }

  predicate StepsTo(c: Controller, e: Event, f: nat) {
    && c.phase.Paused? && f < c.frames
    && ((Key(e, Left) && f + 1 == c.At()) || (Key(e, Right) && f == c.At() + 1))
  }

  predicate Steps(c: Controller, e: Event) {
    c.phase.Paused? && ((Key(e, Left) && c.At() > 0) || (Key(e, Right) && c.At() + 1 < c.frames))
  }

  /** The next take: its slot came, or a toggle at the end of a take that is not the last. */
  predicate Advances(c: Controller, e: Event) {
    || (c.phase.Playing? && c.takeEndPending && e.TakeSlot?)
    || (c.phase.Paused? && Key(e, Toggle) && !CanGoOn(c) && !c.lastTake)
  }

  predicate Recovers(c: Controller, e: Event, outcome: RecoveryOutcome) {
    c.phase.Recovering? && e == RecoveryDone(outcome)
  }

  predicate Shows(c: Controller, e: Event, f: nat) {
    || PausesAt(c, e, f) || EndsLastTake(c, e, f)
    || (Recovers(c, e, Presented) && c.target == Some(f))
    || (Recovers(c, e, FailedRestored) && f == c.At())
    || (c.phase.Interrupted? && e.PresentationBack? && f == c.At())
  }

  predicate Notes(c: Controller, e: Event, f: nat, control: string) {
    || (control == "pause" && PausesAt(c, e, f))
    || (control == "resume" && Resumes(c, e) && f == c.At())
    || (control == "advance_take" && Advances(c, e) && c.phase.Paused? && f == c.At())
    || (control == "step_back" && StepsTo(c, e, f) && Key(e, Left))
    || (control == "step_forward" && StepsTo(c, e, f) && Key(e, Right))
    || (control == "interrupted" && e.PresentationLost? && !c.Over() && f == c.At())
    || (control == "recovered" && c.phase.Interrupted? && e.PresentationBack? && f == c.At())
  }

  predicate Tells(c: Controller, e: Event, n: Notice) {
    match n
    case NotAvailable => Key(e, Toggle) && (c.phase.Preparing? || c.phase.Pausing?)
    case Busy => c.phase.Recovering? && e.KeyPressed? && !e.action.Info?
    case RecoveryFailed => Recovers(c, e, FailedRestored)
    case WasInterrupted => c.phase.Interrupted? && Key(e, Toggle)
    case NoNextFrame => c.phase.Paused? && Key(e, Toggle) && !CanGoOn(c) && c.lastTake
  }

  /** Exactly when each order is given. */
  predicate Orders(c: Controller, e: Event, x: Command) {
    match x
    case PresentFrame(f) => Shows(c, e, f)
    case RecoverFrame(f) => StepsTo(c, e, f)
    case PauseAudio(f) => PausesAt(c, e, f) || EndsLastTake(c, e, f)
    case ResumeAudio(f) => Resumes(c, e) && f == c.At() + 1
    case Notify(n) => Tells(c, e, n)
    case ToggleDebug(f) => Key(e, Info) && !c.Over() && !c.phase.Preparing? && f == c.At()
    case InspectionEvent(f, control) => Notes(c, e, f, control)
    case ConfirmLinearResult(f) => EndsLastTake(c, e, f)
    case AdvanceTake(f) => Advances(c, e) && f == c.At()
    case FinishTraversal(f) => Recovers(c, e, FailedUnrecoverable) && f == c.At()
    case Close(f) => e.Cancelled? && f == c.At()
  }

  // ---------------------------------------------------------------------------------------
  // One event.
  // ---------------------------------------------------------------------------------------

  lemma KeyOrders(c: Controller, action: KeyAction, activity: FrameActivity, x: Command)
    requires Inv(c) && Allowed(c, KeyPressed(action, activity))
    ensures x in OnKey(c, action, activity).commands <==> Orders(c, KeyPressed(action, activity), x)
  {
    if c.phase.Paused? && !c.Over() { PausedOrders(c, action, activity, x); }
  }

  lemma PausedOrders(c: Controller, action: KeyAction, activity: FrameActivity, x: Command)
    requires Inv(c) && c.phase.Paused?
    ensures x in OnKey(c, action, activity).commands <==> Orders(c, KeyPressed(action, activity), x)
  {
    match action
    case Toggle => assert OnKey(c, action, activity) == OnResume(c);
    case Info => assert OnKey(c, action, activity).commands == [ToggleDebug(c.At())];
    case _ => assert OnKey(c, action, activity) == OnStep(c, action.Left?);
  }

  lemma FrameOrders(c: Controller, frame: nat, x: Command)
    requires Inv(c) && Allowed(c, FrameDone(frame))
    ensures x in OnFrameCompleted(c, frame).commands <==> Orders(c, FrameDone(frame), x)
  {
  }

  lemma RecoveryOrders(c: Controller, outcome: RecoveryOutcome, x: Command)
    requires Inv(c)
    ensures x in OnRecoveryFinished(c, outcome).commands <==> Orders(c, RecoveryDone(outcome), x)
  {
  }

  /** Every order of every allowed event, and no other. */
  lemma OrderedExactly(c: Controller, e: Event, x: Command)
    requires Inv(c) && Allowed(c, e)
    ensures x in React(c, e).commands <==> Orders(c, e, x)
  {
    match e
    case KeyPressed(action, activity) => KeyOrders(c, action, activity, x);
    case FrameDone(frame) => FrameOrders(c, frame, x);
    case RecoveryDone(outcome) => RecoveryOrders(c, outcome, x);
    case _ => OtherOrders(c, e, x);
  }

  lemma OtherOrders(c: Controller, e: Event, x: Command)
    requires Inv(c) && !e.KeyPressed? && !e.FrameDone? && !e.RecoveryDone?
    ensures x in React(c, e).commands <==> Orders(c, e, x)
  {
  }

  /** No order is repeated; the linear result is confirmed before the frame is presented and the
      audio paused, and a frame is presented before its audio is. */
  lemma OrdersInTurn(c: Controller, e: Event)
    requires Inv(c) && Allowed(c, e)
    ensures var xs := React(c, e).commands;
            && (forall i, j :: 0 <= i < j < |xs| ==> xs[i] != xs[j] && !xs[j].ConfirmLinearResult?)
            && (forall i, j :: 0 <= i < j < |xs| && xs[i].PauseAudio? ==> !xs[j].PresentFrame?)
  {
    if e.KeyPressed? { KeysInTurn(c, e.action, e.activity); }
  }

  lemma KeysInTurn(c: Controller, action: KeyAction, activity: FrameActivity)
    ensures var xs := OnKey(c, action, activity).commands;
            && (forall i, j :: 0 <= i < j < |xs| ==> xs[i] != xs[j] && !xs[j].ConfirmLinearResult?)
            && (forall i, j :: 0 <= i < j < |xs| && xs[i].PauseAudio? ==> !xs[j].PresentFrame?)
  {
  }

  /** Nothing happened that leads out of a phase. */
  predicate Undisturbed(e: Event) { !e.PresentationLost? && !e.Cancelled? }

  /** Exactly which phase follows. */
  predicate PhaseFollows(c: Controller, e: Event, phase: Phase) {
    match phase
    case Preparing => c.phase.Preparing? && !e.Prepared? && Undisturbed(e)
    case Playing =>
      || (c.phase.Preparing? && e.Prepared?) || Resumes(c, e)
      || (c.phase.Playing? && Undisturbed(e) && !Key(e, Toggle) && !Advances(c, e)
          && !(e.FrameDone? && EndsLastTake(c, e, e.frame)))
    case Pausing =>
      || (c.phase.Playing? && Key(e, Toggle) && (e.activity.Producing? || c.position.None?))
      || (c.phase.Pausing? && Undisturbed(e) && !e.FrameDone?)
    case Paused =>
      || (c.phase.Pausing? && e.FrameDone?)
      || (c.phase.Playing? && e == KeyPressed(Toggle, BetweenFrames) && c.position.Some?)
      || (e.FrameDone? && EndsLastTake(c, e, e.frame))
      || Recovers(c, e, Presented) || Recovers(c, e, FailedRestored)
      || (c.phase.Interrupted? && e.PresentationBack?)
      || (c.phase.Paused? && Undisturbed(e) && !Resumes(c, e) && !Steps(c, e) && !Advances(c, e))
    case Recovering => Steps(c, e) || (c.phase.Recovering? && Undisturbed(e) && !e.RecoveryDone?)
    case Interrupted =>
      || (e.PresentationLost? && !c.Over())
      || (c.phase.Interrupted? && !e.PresentationBack? && !e.Cancelled?)
    case Closing => e.Cancelled? || Advances(c, e) || c.phase.Closing?
    case Failed => Recovers(c, e, FailedUnrecoverable) || (c.phase.Failed? && !e.Cancelled?)
  }

  lemma NextPhase(c: Controller, e: Event, phase: Phase)
    requires Inv(c) && Allowed(c, e)
    ensures React(c, e).next.phase == phase <==> PhaseFollows(c, e, phase)
  {
    if e.KeyPressed? {
      KeyPhase(c, e.action, e.activity, phase);
    } else if e.FrameDone? {
      FramePhase(c, e.frame, phase);
    } else {
      OtherPhase(c, e, phase);
    }
  }

  lemma KeyPhase(c: Controller, action: KeyAction, activity: FrameActivity, phase: Phase)
    requires Inv(c) && Allowed(c, KeyPressed(action, activity))
    ensures OnKey(c, action, activity).next.phase == phase <==> PhaseFollows(c, KeyPressed(action, activity), phase)
  {
    if c.phase.Paused? { PausedPhase(c, action, activity, phase); }
  }

  lemma PausedPhase(c: Controller, action: KeyAction, activity: FrameActivity, phase: Phase)
    requires Inv(c) && c.phase.Paused?
    ensures OnKey(c, action, activity).next.phase == phase <==> PhaseFollows(c, KeyPressed(action, activity), phase)
  {
    match action
    case Toggle => assert OnKey(c, action, activity) == OnResume(c);
    case Info => assert OnKey(c, action, activity).next.phase == Paused;
    case _ => assert OnKey(c, action, activity) == OnStep(c, action.Left?);
  }

  lemma FramePhase(c: Controller, frame: nat, phase: Phase)
    requires Inv(c) && Allowed(c, FrameDone(frame))
    ensures OnFrameCompleted(c, frame).next.phase == phase <==> PhaseFollows(c, FrameDone(frame), phase)
  {
  }

  lemma OtherPhase(c: Controller, e: Event, phase: Phase)
    requires Inv(c) && !e.KeyPressed? && !e.FrameDone?
    ensures React(c, e).next.phase == phase <==> PhaseFollows(c, e, phase)
  {
  }

  /** The debug overlay, and whether the take was ever inspected by stepping. */
  lemma NextView(c: Controller, e: Event)
    requires Inv(c) && Allowed(c, e)
    ensures var d := React(c, e).next;
            && d.debugVisible == (c.debugVisible != (Key(e, Info) && !c.Over() && !c.phase.Preparing?))
            && d.inspected == (c.inspected || Steps(c, e))
            && d.cause == (if e.PresentationLost? && !c.Over() then e.cause else c.cause)
  {
    if e.KeyPressed? { KeyView(c, e.action, e.activity); }
  }

  lemma KeyView(c: Controller, action: KeyAction, activity: FrameActivity)
    requires Inv(c)
    ensures var d, e := OnKey(c, action, activity).next, KeyPressed(action, activity);
            && d.debugVisible == (c.debugVisible != (Key(e, Info) && !c.Over() && !c.phase.Preparing?))
            && d.inspected == (c.inspected || Steps(c, e))
            && d.cause == c.cause
  {
  }

  /** The end of the take: reached by its last frame, pending until its slot. */
  lemma NextEnd(c: Controller, e: Event)
    requires Inv(c) && Allowed(c, e)
    ensures var d := React(c, e).next;
            && d.frames == c.frames && d.lastTake == c.lastTake
            && d.endedNaturally == (c.endedNaturally || (e.FrameDone? && e.frame + 1 == c.frames))
            && d.takeEndPending ==
               ((c.takeEndPending && !(c.phase.Playing? && e.TakeSlot?))
                || (c.phase.Playing? && !c.lastTake && e.FrameDone? && e.frame + 1 == c.frames))
  {
    if e.KeyPressed? { KeyEnd(c, e.action, e.activity); }
  }

  lemma KeyEnd(c: Controller, action: KeyAction, activity: FrameActivity)
    ensures var d := OnKey(c, action, activity).next;
            && d.frames == c.frames && d.lastTake == c.lastTake
            && d.endedNaturally == c.endedNaturally && d.takeEndPending == c.takeEndPending
  {
    if c.phase.Paused? && action.Toggle? {
      assert OnKey(c, action, activity) == OnResume(c);
    } else if c.phase.Paused? && !action.Info? {
      assert OnKey(c, action, activity) == OnStep(c, action.Left?);
    }
  }

  /** The target: set by a step, kept while the recovery lasts. */
  lemma NextTarget(c: Controller, e: Event, f: nat)
    requires Inv(c) && Allowed(c, e)
    ensures React(c, e).next.target == Some(f) <==>
            StepsTo(c, e, f) || (c.target == Some(f) && Undisturbed(e) && !e.RecoveryDone?)
  {
    if e.KeyPressed? { KeyTarget(c, e.action, e.activity, f); }
  }

  lemma KeyTarget(c: Controller, action: KeyAction, activity: FrameActivity, f: nat)
    requires Inv(c)
    ensures OnKey(c, action, activity).next.target == Some(f) <==>
            StepsTo(c, KeyPressed(action, activity), f) || c.target == Some(f)
  {
    if c.phase.Paused? && !action.Info? && !action.Toggle? {
      assert OnKey(c, action, activity) == OnStep(c, action.Left?);
    }
  }

  // ---------------------------------------------------------------------------------------
  // Every run.
  // ---------------------------------------------------------------------------------------

  /** The controller before event i of a run. */
  function Before(c: Controller, events: seq<Event>, i: nat): Controller
    requires i <= |events|
  {
    Run(c, events[..i]).next
  }

  /** What each event of a run orders. */
  function Given(c: Controller, events: seq<Event>): (given: seq<seq<Command>>)
    ensures |given| == |events|
  {
    if events == [] then []
    else
      var n := |events| - 1;
      Given(c, events[..n]) + [React(Run(c, events[..n]).next, events[n]).commands]
  }

  lemma {:induction false} GivenAt(c: Controller, events: seq<Event>, i: nat)
    requires i < |events|
    ensures Given(c, events)[i] == React(Before(c, events, i), events[i]).commands
  {
    var n := |events| - 1;
    if i < n {
      GivenAt(c, events[..n], i);
      assert events[..n][..i] == events[..i];
    }
  }

  /** What a run orders is what its events order, one after the other. */
  lemma {:induction false} TraceIsGiven(c: Controller, events: seq<Event>)
    ensures Run(c, events).commands == Flatten(Given(c, events))
  {
    if events != [] {
      var n := |events| - 1;
      TraceIsGiven(c, events[..n]);
      FlattenOneMore(Given(c, events[..n]), React(Run(c, events[..n]).next, events[n]).commands);
    }
  }

  lemma BeforeIsSound(frames: nat, lastTake: bool, events: seq<Event>, i: nat)
    requires Disciplined(Initial(frames, lastTake), events) && i <= |events|
    ensures Inv(Before(Initial(frames, lastTake), events, i))
    ensures Before(Initial(frames, lastTake), events, i).frames == frames
    ensures Before(Initial(frames, lastTake), events, i).lastTake == lastTake
  {
    DisciplinedPrefix(Initial(frames, lastTake), events, i);
    RunIsSound(Initial(frames, lastTake), events[..i]);
  }

  /** Event i of the run asks for the order. */
  ghost predicate Wanted(frames: nat, lastTake: bool, events: seq<Event>, i: nat, x: Command) {
    i < |events| && Orders(Before(Initial(frames, lastTake), events, i), events[i], x)
  }

  /** Over every disciplined run, an order is in the trace exactly when some event asks for it. */
  lemma OrderedInRun(frames: nat, lastTake: bool, events: seq<Event>, x: Command)
    requires Disciplined(Initial(frames, lastTake), events)
    ensures x in Run(Initial(frames, lastTake), events).commands <==>
            exists i: nat :: Wanted(frames, lastTake, events, i, x)
  {
    var c := Initial(frames, lastTake);
    TraceIsGiven(c, events);
    InFlatten(Given(c, events), x);
    if i :| 0 <= i < |events| && x in Given(c, events)[i] { GivenIsWanted(frames, lastTake, events, i, x); }
    if i: nat :| Wanted(frames, lastTake, events, i, x) { GivenIsWanted(frames, lastTake, events, i, x); }
  }

  lemma GivenIsWanted(frames: nat, lastTake: bool, events: seq<Event>, i: nat, x: Command)
    requires Disciplined(Initial(frames, lastTake), events) && i < |events|
    ensures x in Given(Initial(frames, lastTake), events)[i] <==> Wanted(frames, lastTake, events, i, x)
  {
    var c := Initial(frames, lastTake);
    GivenAt(c, events, i);
    BeforeIsSound(frames, lastTake, events, i);
    OrderedExactly(Before(c, events, i), events[i], x);
  }

  /** Event i is the last frame of the take, arriving in playback. */
  ghost predicate PlaysEnd(frames: nat, lastTake: bool, events: seq<Event>, i: nat) {
    && i < |events| && events[i].FrameDone? && events[i].frame + 1 == frames
    && Before(Initial(frames, lastTake), events, i).phase.Playing?
  }

  /** The linear result of a run is confirmed exactly when the take is the last and its last frame
      arrives in playback, and then for that frame. */
  lemma ConfirmedExactly(frames: nat, lastTake: bool, events: seq<Event>, f: nat)
    requires Disciplined(Initial(frames, lastTake), events)
    ensures ConfirmLinearResult(f) in Run(Initial(frames, lastTake), events).commands <==>
            lastTake && f + 1 == frames && exists i: nat :: PlaysEnd(frames, lastTake, events, i)
  {
    var x := ConfirmLinearResult(f);
    OrderedInRun(frames, lastTake, events, x);
    if i: nat :| Wanted(frames, lastTake, events, i, x) { ConfirmWanted(frames, lastTake, events, i, f); }
    if lastTake && f + 1 == frames {
      if i: nat :| PlaysEnd(frames, lastTake, events, i) { ConfirmWanted(frames, lastTake, events, i, f); }
    }
  }

  lemma ConfirmWanted(frames: nat, lastTake: bool, events: seq<Event>, i: nat, f: nat)
    requires Disciplined(Initial(frames, lastTake), events)
    ensures Wanted(frames, lastTake, events, i, ConfirmLinearResult(f)) <==>
            lastTake && f + 1 == frames && PlaysEnd(frames, lastTake, events, i)
  {
    if i < |events| { BeforeIsSound(frames, lastTake, events, i); }
  }

  /** Event i gives way to the next take, at frame f. */
  ghost predicate EndsTakeAt(frames: nat, lastTake: bool, events: seq<Event>, i: nat, f: nat) {
    && i < |events| && Advances(Before(Initial(frames, lastTake), events, i), events[i])
    && f == Before(Initial(frames, lastTake), events, i).At()
  }

  lemma AdvanceWanted(frames: nat, lastTake: bool, events: seq<Event>, i: nat, f: nat)
    ensures Wanted(frames, lastTake, events, i, AdvanceTake(f)) <==> EndsTakeAt(frames, lastTake, events, i, f)
  {
  }

  /** The take gives way to the next exactly when the slot of that one comes at its end, or at a
      toggle that cannot go on and the take is not the last. */
  lemma AdvancedExactly(frames: nat, lastTake: bool, events: seq<Event>, f: nat)
    requires Disciplined(Initial(frames, lastTake), events)
    ensures AdvanceTake(f) in Run(Initial(frames, lastTake), events).commands <==>
            exists i: nat :: EndsTakeAt(frames, lastTake, events, i, f)
  {
    var x := AdvanceTake(f);
    OrderedInRun(frames, lastTake, events, x);
    if i: nat :| Wanted(frames, lastTake, events, i, x) { AdvanceWanted(frames, lastTake, events, i, f); }
    if i: nat :| EndsTakeAt(frames, lastTake, events, i, f) { AdvanceWanted(frames, lastTake, events, i, f); }
  }
}
