/**
 When stepping back in an inspected take is cheap and when it is not, and how a take that is
 interrupted before its first frame fails (src/audio_qa_runtime_session.cpp).
 */
module ReplayScripts {
  import opened Checkpoints
  import opened Collections
  import opened InspectionOrders
  import opened InspectionState
  import opened Integers
  import opened Options
  import opened ReplaySession

  /** A run from a new session without a step forward, whose captures are all exported and fit
      the budget together, keeps every restore within K frames. */
  method PlayedTakeStepsBackCheaply<S, I>(session: ReplaySession<S, I>, script: seq<Stimulus<S>>)
    requires session.Valid() && session.LedgerOk() && session.Backward()
    requires session.stepped == {} && !session.refused
    requires KeyPress(Right) !in script && forall i :: 0 <= i < |script| ==> Exports(script[i])
    requires session.asked + SizesIn(script) <= session.store.ring.budget
    modifies session, session.controller, session.store, session.store.ring
    ensures session.Valid() && session.LedgerOk()
    ensures !session.failed ==>
              forall target: nat :: target <= session.framesCompleted && target < TWO_32 ==>
                                      target - session.From(target) <= session.store.ring.interval
  {
    var _ := session.Run(script);
    if !session.failed {
      forall target: nat | target <= session.framesCompleted && target < TWO_32
        ensures target - session.From(target) <= session.store.ring.interval
      {
        session.StepBackCost(target);
      }
    }
  }

  /** The controller's answers on the way of the scripts below. */
  lemma WalkAnswers(c: Controller, frames: nat, lastTake: bool)
    requires c.frames == frames > 1
    ensures c == Initial(frames, lastTake).(phase := Playing) ==>
              && var d := React(c, KeyPressed(Toggle, BetweenFrames)).next;
              && d.phase == Pausing && d.position == None && d.StartsFrame() && d.NextFrame() == 0 && d.frames == frames
              && React(d, FrameDone(0)).next.phase == Paused && React(d, FrameDone(0)).next.position == Some(0)
    ensures c.phase == Paused && c.position.Some? && c.position.value + 1 < frames ==>
              && var d := React(c, KeyPressed(Right, BetweenFrames)).next;
              && d.phase == Recovering && d.target == Some(c.position.value + 1) && d.position == c.position
    ensures c.phase == Paused && c.position.Some? && c.position.value > 0 ==>
              && var d := React(c, KeyPressed(Left, BetweenFrames)).next;
              && d.phase == Recovering && d.target == Some(c.position.value - 1) && d.position == c.position
  {
  }

  /** One step of a paused session, forward or back: nothing is captured on the way, and from
      the frame it stands at it costs what the plan says. */
  method StepOnce<S, I>(session: ReplaySession<S, I>, action: KeyAction, rearmed: Engine<S>)
    requires session.Valid() && session.GridOk() && !session.failed && !session.done && !session.loopFailed
    requires session.controller.phase == Paused && session.controller.position.Some?
    requires match action
             case Right => session.controller.position.value + 1 < |session.inputs|
             case Left => session.controller.position.value > 0
             case _ => false
    modifies session`engine, session`armed, session`engineBase, session`sessionFrame, session`view,
             session`framesCompleted, session`loopFailed, session`postEndRuns, session`shown, session`stepped,
             session`simulated, session`confirmedLinear, session`done, session.controller
    ensures session.Valid() && session.GridOk() && !session.done && !session.loopFailed
    ensures session.controller.phase == Paused
    ensures session.controller.position ==
            Some(old(session.controller.position.value) + if action.Right? then 1 else -1)
    ensures action.Left? ==>
              var p := session.controller.position.value;
              session.simulated == old(session.simulated) + (p - session.From(p))
  {
    AskStep(session, action);
    ReachTarget(session, rearmed);
  }

  method AskStep<S, I>(session: ReplaySession<S, I>, action: KeyAction)
    requires session.Valid() && !session.failed && !session.done
    requires session.controller.phase == Paused && session.controller.position.Some?
    requires match action
             case Right => session.controller.position.value + 1 < |session.inputs|
             case Left => session.controller.position.value > 0
             case _ => false
    modifies session`shown, session`confirmedLinear, session`done, session.controller
    ensures session.Valid() && !session.done && session.controller.phase == Recovering
    ensures session.controller.target == Some(old(session.controller.position.value) + if action.Right? then 1 else -1)
    ensures session.controller.position == old(session.controller.position)
  {
    WalkAnswers(session.controller.View(), |session.inputs|, true);
    session.PressKey(action);
  }

  method ReachTarget<S, I>(session: ReplaySession<S, I>, rearmed: Engine<S>)
    requires session.Valid() && session.GridOk() && !session.failed && !session.done && !session.loopFailed
    requires session.controller.phase == Recovering
    modifies session`engine, session`armed, session`engineBase, session`sessionFrame, session`view,
             session`framesCompleted, session`loopFailed, session`postEndRuns, session`shown, session`stepped,
             session`simulated, session`confirmedLinear, session`done, session.controller
    ensures session.Valid() && session.GridOk() && !session.done && !session.loopFailed
    ensures session.controller.phase == Paused && session.controller.position == old(session.controller.target)
    ensures session.simulated == old(session.simulated) + old(session.CostOf(session.controller.target.Or(0)))
  {
    var clear := Weather(Accepted, {}, {});
    var _ := session.Navigate(Some(rearmed), clear, clear);
  }

  /** A new session, paused at its first frame. */
  method PausedAtFirst<S, I>(step: (S, I) -> S, inputs: seq<I>, initial: Engine<S>, lastTake: bool,
                             interval: nat, budget: nat, size: nat) returns (session: ReplaySession<S, I>)
    requires interval > 1 && 2 * budget < TWO_64 && |inputs| > 1
    ensures fresh(session) && fresh(session.controller) && fresh(session.store) && fresh(session.store.ring)
    ensures session.Valid() && session.GridOk() && !session.failed && !session.done && !session.loopFailed
    ensures session.inputs == inputs && session.store.ring.interval == interval
    ensures session.store.ring.entries == [Entry(INITIAL_FRAME, size)]
    ensures session.controller.phase == Paused && session.controller.position == Some(0)
  {
    session := new ReplaySession(step, inputs, initial, lastTake, interval, budget, size);
    PauseFirst(session, lastTake);
  }

  /** A pause asked for before the first frame is served by it. */
  method PauseFirst<S, I>(session: ReplaySession<S, I>, ghost lastTake: bool)
    requires session.Valid() && session.LedgerOk() && !session.failed && !session.done && !session.loopFailed
    requires session.sessionFrame == None && session.store.ring.interval > 1 && |session.inputs| > 1
    requires session.controller.View() == Initial(|session.inputs|, lastTake).(phase := Playing)
    modifies session, session.controller, session.store, session.store.ring
    ensures session.Valid() && session.GridOk() && !session.failed && !session.done && !session.loopFailed
    ensures session.store.ring.entries == old(session.store.ring.entries)
    ensures session.controller.phase == Paused && session.controller.position == Some(0)
  {
    AskPause(session, lastTake);
    ServePause(session);
  }

  method ServePause<S, I>(session: ReplaySession<S, I>)
    requires session.Valid() && session.LedgerOk() && session.Live() && !session.loopFailed
    requires session.sessionFrame == None && session.store.ring.interval > 1 && |session.inputs| > 1
    requires session.controller.phase == Pausing && session.controller.position == None
    modifies session, session.controller, session.store, session.store.ring
    ensures session.Valid() && session.GridOk() && !session.failed && !session.done && !session.loopFailed
    ensures session.store.ring.entries == old(session.store.ring.entries)
    ensures session.controller.phase == Paused && session.controller.position == Some(0)
  {
    ServedAtFirst(session.controller.View());
    session.Turn(false, true, 0, false);
  }

  lemma ServedAtFirst(c: Controller)
    requires c.phase == Pausing && c.frames > 1
    ensures React(c, FrameDone(0)).next == c.(phase := Paused, position := Some(0))
  {
  }

  method AskPause<S, I>(session: ReplaySession<S, I>, ghost lastTake: bool)
    requires session.Valid() && session.LedgerOk() && session.Live() && |session.inputs| > 1
    requires session.controller.View() == Initial(|session.inputs|, lastTake).(phase := Playing)
    modifies session`shown, session`confirmedLinear, session`done, session.controller
    ensures session.Valid() && session.Live()
    ensures session.controller.phase == Pausing && session.controller.position == None
  {
    WalkAnswers(session.controller.View(), |session.inputs|, lastTake);
    session.PressKey(Toggle);
  }

  /** A take paused at its first frame and walked `walked` frames forward by steps alone: the
      step back costs `walked` Engine steps, all of them from the initial state, whatever the
      budget. For any interval K > 1 that is more than K as soon as the walk is longer. */
  method WalkThenStepBack<S, I>(step: (S, I) -> S, inputs: seq<I>, initial: Engine<S>, lastTake: bool,
                                interval: nat, budget: nat, size: nat, walked: nat)
    returns (session: ReplaySession<S, I>, ghost before: nat)
    requires interval > 1 && 2 * budget < TWO_64 && 1 <= walked && walked < |inputs|
    ensures fresh(session) && session.Valid() && !session.failed && session.store.ring.interval == interval
    ensures session.controller.position == Some(walked - 1)
    ensures session.simulated == before + walked
    ensures walked > interval ==> session.simulated - before > session.store.ring.interval
  {
    session := PausedAtFirst(step, inputs, initial, lastTake, interval, budget, size);
    Walk(session, initial, walked);
    before := session.simulated;
    OnlyInitialBelow(session.store.ring.entries, walked - 1);
    StepOnce(session, Left, initial);
  }

  method Walk<S, I>(session: ReplaySession<S, I>, rearmed: Engine<S>, walked: nat)
    requires session.Valid() && session.GridOk() && !session.failed && !session.done && !session.loopFailed
    requires session.controller.phase == Paused && session.controller.position == Some(0) && walked < |session.inputs|
    modifies session`engine, session`armed, session`engineBase, session`sessionFrame, session`view,
             session`framesCompleted, session`loopFailed, session`postEndRuns, session`shown, session`stepped,
             session`simulated, session`confirmedLinear, session`done, session.controller
    ensures session.Valid() && session.GridOk() && !session.done && !session.loopFailed
    ensures session.controller.phase == Paused && session.controller.position == Some(walked)
  {
    for n := 0 to walked
      invariant session.Valid() && session.GridOk() && !session.done && !session.loopFailed
      invariant session.controller.phase == Paused && session.controller.position == Some(n)
    {
      StepOnce(session, Right, rearmed);
    }
  }

  lemma OnlyInitialBelow(entries: seq<Entry>, target: nat)
    requires |entries| == 1 && entries[0].frame == INITIAL_FRAME
    ensures RingOk(entries) && PlanRestore(entries, target) == RestorePlan(INITIAL_FRAME, 0, target)
  {
    RestoreIsNearest(entries, target);
  }

  /** The controller's answers when the presentation is lost before frame 0. */
  lemma InterruptedAnswers(frames: nat, lastTake: bool, cause: string)
    requires frames > 1
    ensures var c := Initial(frames, lastTake);
            && React(React(c.(phase := Playing), PresentationLost(cause)).next, PresentationBack).next
               == c.(phase := Paused, cause := cause)
            && var d := React(c.(phase := Paused, cause := cause), KeyPressed(Right, BetweenFrames)).next;
            && d.phase == Recovering && d.target == Some(1) && d.position == None
  {
  }

  /** A take of two frames or more whose presentation is lost before frame 0, and whose first
      step forward runs out of time after frame 0: resuming asks for frame 0 again and the
      session fails. */
  method InterruptedBeforeFrameZero<S, I>(step: (S, I) -> S, inputs: seq<I>, initial: Engine<S>, lastTake: bool,
                                          interval: nat, budget: nat, size: nat, cause: string, second: Weather<S>)
    returns (session: ReplaySession<S, I>)
    requires 2 * budget < TWO_64 && |inputs| >= 2 && second.throws == {}
    ensures fresh(session) && session.failed
  {
    session := StepBeforeFrameZero(step, inputs, initial, lastTake, interval, budget, size, cause);
    FallBackToZero(session, second);
    ResumeAtZero(session);
    session.Turn(false, true, 0, false);
  }

  method ResumeAtZero<S, I>(session: ReplaySession<S, I>)
    requires session.Valid() && session.LedgerOk() && session.Live() && |session.inputs| >= 2
    requires session.controller.phase == Paused && session.controller.position == None
    requires !session.controller.endedNaturally && !session.controller.takeEndPending
    modifies session`shown, session`confirmedLinear, session`done, session.controller
    ensures session.Valid() && session.Live()
    ensures session.controller.View().StartsFrame() && session.controller.position == None
  {
    session.PressKey(Toggle);
  }

  method StepBeforeFrameZero<S, I>(step: (S, I) -> S, inputs: seq<I>, initial: Engine<S>, lastTake: bool,
                                   interval: nat, budget: nat, size: nat, cause: string)
    returns (session: ReplaySession<S, I>)
    requires 2 * budget < TWO_64 && |inputs| >= 2
    ensures fresh(session) && fresh(session.controller) && fresh(session.store) && fresh(session.store.ring)
    ensures session.Valid() && session.LedgerOk() && !session.failed && !session.done && !session.loopFailed
    ensures session.sessionFrame == None && !session.confirmedLinear && session.inputs == inputs
    ensures session.store.ring.entries == [Entry(INITIAL_FRAME, size)]
    ensures session.controller.phase == Recovering && session.controller.target == Some(1)
    ensures session.controller.position == None && !session.controller.endedNaturally
             && !session.controller.takeEndPending
  {
    session := LostBeforeFrameZero(step, inputs, initial, lastTake, interval, budget, size, cause);
    InterruptedAnswers(|inputs|, lastTake, cause);
    session.PressKey(Right);
  }

  method LostBeforeFrameZero<S, I>(step: (S, I) -> S, inputs: seq<I>, initial: Engine<S>, lastTake: bool,
                                   interval: nat, budget: nat, size: nat, cause: string)
    returns (session: ReplaySession<S, I>)
    requires 2 * budget < TWO_64 && |inputs| >= 2
    ensures fresh(session) && fresh(session.controller) && fresh(session.store) && fresh(session.store.ring)
    ensures session.Valid() && session.LedgerOk() && !session.failed && !session.done && !session.loopFailed
    ensures session.sessionFrame == None && !session.confirmedLinear && session.inputs == inputs
    ensures session.store.ring.entries == [Entry(INITIAL_FRAME, size)]
    ensures session.controller.View() == Initial(|inputs|, lastTake).(phase := Paused, cause := cause)
  {
    session := new ReplaySession(step, inputs, initial, lastTake, interval, budget, size);
    LoseAndRegain(session, cause);
    InterruptedAnswers(|inputs|, lastTake, cause);
  }

  method LoseAndRegain<S, I>(session: ReplaySession<S, I>, cause: string)
    requires session.Valid() && !session.failed && !session.done && !session.controller.View().Over()
    modifies session`shown, session`confirmedLinear, session`done, session.controller
    ensures session.Valid() && !session.done && session.confirmedLinear == old(session.confirmedLinear)
    ensures session.controller.View() ==
            React(React(old(session.controller.View()), PresentationLost(cause)).next, PresentationBack).next
  {
    session.LosePresentation(cause);
    session.RegainPresentation();
  }

  /** The recovery is stopped by its time limit after frame 0, which is where an absent position
      is taken to be. */
  method FallBackToZero<S, I>(session: ReplaySession<S, I>, second: Weather<S>)
    requires session.Valid() && session.LedgerOk() && !session.failed && !session.done && !session.loopFailed
    requires session.sessionFrame == None && !session.confirmedLinear && second.throws == {}
    requires |session.store.ring.entries| == 1
    requires session.controller.phase == Recovering && session.controller.target == Some(1)
    requires session.controller.position == None && !session.controller.endedNaturally
             && !session.controller.takeEndPending
    modifies session, session.controller
    ensures session.Valid() && session.LedgerOk() && !session.failed && !session.done && !session.loopFailed
    ensures session.sessionFrame == Some(0) && session.controller.phase == Paused && session.controller.position == None
    ensures !session.controller.endedNaturally && !session.controller.takeEndPending
  {
    OnlyInitialBelow(session.store.ring.entries, 1);
    assert StopAt({0}, 0, 1) == 0;
    var late: Weather<S> := Weather(Accepted, {}, {0});
    var outcome := session.Navigate(None, late, second);
  }

  // ---------------------------------------------------------------------------------------
  // What the loop does with a take that is played.
  // ---------------------------------------------------------------------------------------

  /** A turn of playback that does not throw, and does not close the window at the end. */
  predicate PlainTurn<S>(s: Stimulus<S>) { s.FrameTurn? && !s.throws && !s.closes }

  /** The pictures of frames 0..n-1 of the plain replay, in order. */
  ghost function Pictured<S, I>(session: ReplaySession<S, I>, n: nat): (pictures: seq<(nat, Engine<S>)>)
    requires n <= |session.inputs|
    ensures |pictures| == n && forall k :: 0 <= k < n ==> pictures[k] == (k, session.After(k + 1))
  {
    if n == 0 then [] else Pictured(session, n - 1) + [(n - 1, session.After(n))]
  }

  /** The controller of a take after n frames of uninterrupted playback. */
  function Played(frames: nat, lastTake: bool, n: nat): Controller
    requires n <= frames
  {
    var c := Initial(frames, lastTake).(phase := Playing);
    if n == 0 then c
    else if n < frames then c.(position := Some(n - 1))
    else if lastTake then c.(phase := Paused, position := Some(n - 1), endedNaturally := true)
    else c.(position := Some(n - 1), endedNaturally := true, takeEndPending := true)
  }

  lemma PlayedOneMore(frames: nat, lastTake: bool, n: nat)
    requires n < frames
    ensures var c := Played(frames, lastTake, n);
            && c.StartsFrame() && c.NextFrame() == n && !c.AtTakeEnd()
            && React(c, FrameDone(n)).next == Played(frames, lastTake, n + 1)
            && React(c, FrameDone(n)).commands ==
               if lastTake && n + 1 == frames then [ConfirmLinearResult(n), PresentFrame(n), PauseAudio(n)] else []
  {
  }

  /** The end of the last take presents its last frame again and confirms. */
  lemma EndPictures<S>(n: nat, e: Engine<S>)
    ensures var xs := [ConfirmLinearResult(n), PresentFrame(n), PauseAudio(n)];
            && AllPictures(xs, Some(n), Some(e), Paused) == [(n, e)] && Confirms(xs) && !SomeEnds(xs, false)
  {
    ThreeOrders(ConfirmLinearResult(n), PresentFrame(n), PauseAudio(n), Some(n), Some(e), Paused);
  }

  lemma ThreeOrders<S>(a: Command, b: Command, c: Command, at: Option<nat>, view: Option<Engine<S>>, phase: Phase)
    ensures AllPictures([a, b, c], at, view, phase) ==
            Pictures(a, at, view, phase) + Pictures(b, at, view, phase) + Pictures(c, at, view, phase)
    ensures SomeEnds([a, b, c], false) == (EndsLoop(a, false) || EndsLoop(b, false) || EndsLoop(c, false))
    ensures Confirms([a, b, c]) == (a.ConfirmLinearResult? || b.ConfirmLinearResult? || c.ConfirmLinearResult?)
  {
    var xs := [a, b, c];
    OneMoreOrder(xs, 0, false, at, view, phase);
    OneMoreOrder(xs, 1, false, at, view, phase);
    OneMoreOrder(xs, 2, false, at, view, phase);
    assert xs[..0] == [] && xs[..3] == xs;
  }

  /** A session in the middle of a take that has only been played. */
  ghost predicate HasPlayed<S, I>(session: ReplaySession<S, I>, lastTake: bool, n: nat)
    reads session, session.controller, session.store, session.store.ring
  {
    && session.Valid() && session.LedgerOk() && session.Live() && !session.loopFailed && n <= |session.inputs|
    && session.controller.View() == Played(|session.inputs|, lastTake, n)
    && session.framesCompleted == n && session.stepped == {}
    && session.sessionFrame == (if n == 0 then None else Some(n - 1))
    && session.view == (if n == 0 then None else Some(session.After(n)))
    && session.confirmedLinear == (lastTake && n == |session.inputs|)
    && session.shown == Pictured(session, n)
                        + if lastTake && n == |session.inputs| then [(n - 1, session.After(n))] else []
  }

  /** One more turn plays one more frame. */
  method PlayOne<S, I>(session: ReplaySession<S, I>, s: Stimulus<S>, ghost lastTake: bool, ghost n: nat)
    requires HasPlayed(session, lastTake, n) && n < |session.inputs| && PlainTurn(s)
    modifies session, session.controller, session.store, session.store.ring
    ensures HasPlayed(session, lastTake, n + 1)
    ensures session.asked <= old(session.asked) + s.size && (session.refused ==> old(session.refused) || !s.exported)
  {
    PlayEvent(session, s, lastTake, n);
    EndPictures(n, session.After(n + 1));
    PlayedOneMore(|session.inputs|, lastTake, n);
  }

  method PlayEvent<S, I>(session: ReplaySession<S, I>, s: Stimulus<S>, ghost lastTake: bool, ghost n: nat)
    requires HasPlayed(session, lastTake, n) && n < |session.inputs| && PlainTurn(s)
    modifies session, session.controller, session.store, session.store.ring
    ensures session.Valid() && session.LedgerOk() && session.Live() && !session.loopFailed && session.stepped == {}
    ensures session.controller.View() == Played(|session.inputs|, lastTake, n + 1)
    ensures session.PlayedOn(s, n, old(session.shown), n, Played(|session.inputs|, lastTake, n),
                             old(session.store.ring.entries))
    ensures session.confirmedLinear == (lastTake && n + 1 == |session.inputs|)
    ensures session.asked <= old(session.asked) + s.size && (session.refused ==> old(session.refused) || !s.exported)
  {
    PlayedOneMore(|session.inputs|, lastTake, n);
    EndPictures(n, session.After(n + 1));
    var events := session.Handle(s);
    assert events == [FrameDone(n)];
  }

  /** A script of turns that neither throw nor close plays a new take frame by frame. */
  method Play<S, I>(session: ReplaySession<S, I>, script: seq<Stimulus<S>>, ghost lastTake: bool)
    requires HasPlayed(session, lastTake, 0) && |script| <= |session.inputs|
    requires forall i :: 0 <= i < |script| ==> PlainTurn(script[i])
    modifies session, session.controller, session.store, session.store.ring
    ensures HasPlayed(session, lastTake, |script|)
    ensures session.asked <= old(session.asked) + SizesIn(script)
    ensures (forall i :: 0 <= i < |script| ==> Exports(script[i])) && session.refused ==> old(session.refused)
  {
    for i := 0 to |script|
      invariant HasPlayed(session, lastTake, i)
      invariant session.asked <= old(session.asked) + SizesIn(script[..i])
      invariant (forall k :: 0 <= k < i ==> Exports(script[k])) && session.refused ==> old(session.refused)
    {
      assert script[..i + 1][..i] == script[..i];
      PlayOne(session, script[i], lastTake, i);
    }
    assert script[..|script|] == script;
  }

  /** A whole take played: every frame is produced and shown in order, the take ends naturally
      at its last frame, the last take confirms its result, and if the captures are exported and
      fit the budget together every frame of the grid has its checkpoint. */
  method PlayTake<S, I>(step: (S, I) -> S, inputs: seq<I>, initial: Engine<S>, lastTake: bool,
                        interval: nat, budget: nat, size: nat, script: seq<Stimulus<S>>)
    returns (session: ReplaySession<S, I>)
    requires inputs != [] && 2 * budget < TWO_64 && |script| == |inputs|
    requires forall i :: 0 <= i < |script| ==> PlainTurn(script[i])
    ensures fresh(session) && session.Valid() && session.Live()
    ensures session.inputs == inputs && session.framesCompleted == |inputs|
    ensures session.controller.position == Some(|inputs| - 1) && session.controller.endedNaturally
    ensures session.confirmedLinear == lastTake
    ensures Pictured(session, |inputs|) <= session.shown
    ensures (forall i :: 0 <= i < |script| ==> Exports(script[i])) && size + SizesIn(script) <= budget ==>
              forall f: nat :: f < |inputs| && OnGrid(f, session.store.ring.interval) ==> f in session.store.checkpoints
  {
    session := new ReplaySession(step, inputs, initial, lastTake, interval, budget, size);
    Play(session, script, lastTake);
  }

  /** The take that is played gives way to the next at its slot: one more turn ends the loop. */
  method PlayToTheNext<S, I>(session: ReplaySession<S, I>, s: Stimulus<S>)
    requires HasPlayed(session, false, |session.inputs|) && session.inputs != [] && s.FrameTurn?
    modifies session, session.controller, session.store, session.store.ring
    ensures session.Valid() && session.done && !session.failed && session.controller.phase == Closing
    ensures session.framesCompleted == |session.inputs|
  {
    var events := session.Handle(s);
    assert React(Played(|session.inputs|, false, |session.inputs|), TakeSlot).commands
      == [AdvanceTake(|session.inputs| - 1)];
  }

  /** A pause between frames stays on the frame last shown, and shows it again. */
  method PauseShows<S, I>(session: ReplaySession<S, I>, ghost lastTake: bool, ghost n: nat)
    requires HasPlayed(session, lastTake, n) && 0 < n < |session.inputs|
    modifies session, session.controller, session.store, session.store.ring
    ensures session.Valid() && session.LedgerOk() && session.Live() && !session.loopFailed
    ensures session.controller.phase == Paused && session.controller.position == Some(n - 1)
    ensures session.shown == old(session.shown) + [(n - 1, session.After(n))]
  {
    var c := session.controller.View();
    PauseAnswer(c, n - 1, session.After(n));
    var events := session.Handle(KeyPress(Toggle));
  }

  lemma PauseAnswer<S>(c: Controller, p: nat, e: Engine<S>)
    requires c.phase == Playing && c.position == Some(p)
    ensures var r := React(c, KeyPressed(Toggle, BetweenFrames));
            && r.next == c.(phase := Paused)
            && r.commands == [PresentFrame(p), PauseAudio(p), InspectionEvent(p, "pause")]
            && AllPictures(r.commands, Some(p), Some(e), Paused) == [(p, e)] && !SomeEnds(r.commands, false)
  {
    ThreeOrders(PresentFrame(p), PauseAudio(p), InspectionEvent(p, "pause"), Some(p), Some(e), Paused);
  }

  /** A pause asked for before frame 0 lets it be produced, and stays there. */
  method PauseBeforeFirst<S, I>(session: ReplaySession<S, I>, s: Stimulus<S>, ghost lastTake: bool)
    requires HasPlayed(session, lastTake, 0) && |session.inputs| > 1 && PlainTurn(s)
    modifies session, session.controller, session.store, session.store.ring
    ensures session.Valid() && session.LedgerOk() && session.Live()
    ensures session.controller.phase == Paused && session.controller.position == Some(0)
    ensures session.framesCompleted == 1 && session.shown == [(0, session.After(1)), (0, session.After(1))]
  {
    var c := session.controller.View();
    assert React(c, KeyPressed(Toggle, BetweenFrames)) == Reaction(c.(phase := Pausing), []);
    var first := session.Handle(KeyPress(Toggle));
    PauseServed(c.(phase := Pausing), session.After(1));
    var second := session.Handle(s);
    assert second == [FrameDone(0)];
  }

  lemma PauseServed<S>(c: Controller, e: Engine<S>)
    requires c.phase == Pausing && c.frames > 1 && c.position == None
    ensures var r := React(c, FrameDone(0));
            && r.next == c.(phase := Paused, position := Some(0))
            && !SomeEnds(r.commands, false) && !Confirms(r.commands)
            && AllPictures(r.commands, Some(0), Some(e), Paused) == [(0, e)]
  {
    ThreeOrders(PresentFrame(0), PauseAudio(0), InspectionEvent(0, "pause"), Some(0), Some(e), Paused);
  }

  /** A step of a paused take, forward or back, ends paused at the frame next to it with that
      frame on the screen. */
  method StepShows<S, I>(session: ReplaySession<S, I>, action: KeyAction, rearmed: Engine<S>, target: nat)
    requires session.Valid() && session.LedgerOk() && session.Live() && !session.loopFailed
    requires session.controller.phase == Paused && session.controller.position.Some? && target < |session.inputs|
    requires (action == Right && target == session.controller.position.value + 1)
             || (action == Left && target + 1 == session.controller.position.value)
    modifies session, session.controller, session.store, session.store.ring
    ensures session.Valid() && session.LedgerOk() && session.Live() && !session.loopFailed
    ensures session.controller.phase == Paused && session.controller.position == Some(target)
    ensures session.EndsWith(target)
  {
    AskByScript(session, action, target);
    RecoverByScript(session, rearmed, target);
  }

  method RecoverByScript<S, I>(session: ReplaySession<S, I>, rearmed: Engine<S>, target: nat)
    requires session.Valid() && session.LedgerOk() && session.Live() && !session.loopFailed
    requires session.controller.phase == Recovering && session.controller.target == Some(target)
    requires target < |session.inputs|
    modifies session, session.controller, session.store, session.store.ring
    ensures session.Valid() && session.LedgerOk() && session.Live() && !session.loopFailed
    ensures session.controller.phase == Paused && session.controller.position == Some(target)
    ensures session.EndsWith(target)
  {
    var clear := Weather(Accepted, {}, {});
    ClearReaches(session.Start(), session.From(target), target, clear);
    PresentedAnswer(session.controller.View());
    var events := session.Handle(Recovery(Some(rearmed), clear, clear));
    assert events == [RecoveryDone(Presented)];
  }

  lemma PresentedAnswer(c: Controller)
    requires c.phase == Recovering && c.target.Some?
    ensures var r := React(c, RecoveryDone(Presented));
            && r.next == c.(phase := Paused, position := c.target, target := None)
            && r.commands == [PresentFrame(c.target.value)] && !SomeEnds(r.commands, false)
  {
    var xs := [PresentFrame(c.target.value)];
    assert xs[..0] == [];
  }

  method AskByScript<S, I>(session: ReplaySession<S, I>, action: KeyAction, target: nat)
    requires session.Valid() && session.LedgerOk() && session.Live() && !session.loopFailed
    requires session.controller.phase == Paused && session.controller.position.Some? && target < |session.inputs|
    requires (action == Right && target == session.controller.position.value + 1)
             || (action == Left && target + 1 == session.controller.position.value)
    modifies session, session.controller, session.store, session.store.ring
    ensures session.Valid() && session.LedgerOk() && session.Live() && !session.loopFailed
    ensures session.controller.phase == Recovering && session.controller.target == Some(target)
  {
    var c := session.controller.View();
    WalkAnswers(c, |session.inputs|, true);
    EndsMeansOver(c, KeyPressed(action, BetweenFrames));
    var events := session.Handle(KeyPress(action));
  }

  // ---------------------------------------------------------------------------------------
  // The linear result over every run of the session.
  // ---------------------------------------------------------------------------------------

  lemma {:induction false} ConfirmsMeans(orders: seq<Command>)
    ensures Confirms(orders) <==> exists f :: ConfirmLinearResult(f) in orders
  {
    if orders != [] {
      var rest, last := orders[..|orders| - 1], orders[|orders| - 1];
      ConfirmsMeans(rest);
      WithLast(orders);
      if last.ConfirmLinearResult? { assert ConfirmLinearResult(last.frame) in orders; }
      if f :| ConfirmLinearResult(f) in rest { assert ConfirmLinearResult(f) in orders; }
      if f :| ConfirmLinearResult(f) in orders && ConfirmLinearResult(f) != last {
        assert ConfirmLinearResult(f) in rest;
      }
    }
  }

  /** A session starts with its controller prepared. */
  lemma {:induction false} PreparedFirst(frames: nat, lastTake: bool, events: seq<Event>)
    requires Disciplined(Initial(frames, lastTake).(phase := Playing), events)
    ensures Disciplined(Initial(frames, lastTake), [Prepared] + events)
    ensures InspectionState.Run(Initial(frames, lastTake), [Prepared] + events)
            == InspectionState.Run(Initial(frames, lastTake).(phase := Playing), events)
  {
    var c := Initial(frames, lastTake);
    var all := [Prepared] + events;
    if events == [] {
      assert all == [Prepared] && all[..0] == [];
    } else {
      var n := |events| - 1;
      DisciplinedPrefix(c.(phase := Playing), events, n);
      PreparedFirst(frames, lastTake, events[..n]);
      AppendLast([Prepared], events);
      DisciplinedOneMore(c, [Prepared] + events[..n], events[n]);
    }
  }

  /** Over every run of the loop on a new session: the linear result is confirmed exactly when the
      take is the last and its last frame arrived in playback. */
  method ConfirmedInSession<S, I>(session: ReplaySession<S, I>, lastTake: bool, script: seq<Stimulus<S>>)
    returns (ghost events: seq<Event>)
    requires HasPlayed(session, lastTake, 0) && session.inputs != []
    modifies session, session.controller, session.store, session.store.ring
    ensures session.Valid() && Disciplined(Initial(|session.inputs|, lastTake), events)
    ensures session.controller.View() == InspectionState.Run(Initial(|session.inputs|, lastTake), events).next
    ensures session.confirmedLinear <==>
            lastTake && exists i: nat :: PlaysEnd(|session.inputs|, lastTake, events, i)
  {
    var steps := session.Run(script);
    events := [Prepared] + Flatten(steps);
    PreparedFirst(|session.inputs|, lastTake, Flatten(steps));
    var orders := InspectionState.Run(Initial(|session.inputs|, lastTake), events).commands;
    ConfirmsMeans(orders);
    ConfirmedExactly(|session.inputs|, lastTake, events, |session.inputs| - 1);
    if f :| ConfirmLinearResult(f) in orders { ConfirmedExactly(|session.inputs|, lastTake, events, f); }
  }
}
