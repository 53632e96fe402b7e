/**
 The inspected replay of a take: the loop of src/audio_qa_runtime_session.cpp that produces
 frames, pauses, steps and recovers, over an abstract deterministic Engine.

 An Engine state is its core and visual state with the frame index it counts; `step` is what
 the Engine does with one recorded input. Everything the session cannot decide (a step that
 throws, a rejected restore, the recovery time limit, a lost presentation) comes in as a
 stimulus, so a theorem over every script of stimuli covers every run.
 */
module ReplaySession {
  import opened Checkpoints
  import opened Collections
  import opened Integers
  import opened InspectionState
  import opened Options

  datatype Engine<S> = Engine(core: S, frameIndex: nat)

  /** A rejected core leaves the Engine untouched; a later rejection leaves it in any state. */
  datatype RestoreAnswer<S> = Accepted | CoreRejected | LaterRejected(left: Engine<S>)

  /** What happens to one attempt to reach a frame: the answer to its restore, the frames whose
      step throws, and the frames after which the time limit is found exceeded. */
  datatype Weather<S> = Weather(restore: RestoreAnswer<S>, throws: set<nat>, late: set<nat>)
  {
    predicate Clear() { restore.Accepted? && throws == {} && late == {} }
  }

  datatype Stimulus<S> =
    | KeyPress(action: KeyAction)
    | FrameTurn(throws: bool, exported: bool, size: nat, closes: bool)
    | Recovery(rearmed: Option<Engine<S>>, first: Weather<S>, second: Weather<S>)
    | Loss(cause: string)
    | Back
    | Redraw
    | Quit

  // ---------------------------------------------------------------------------------------
  // What the capture grid keeps.
  // ---------------------------------------------------------------------------------------

  /** Every stored frame is on the grid; and of the completed frames on the grid exactly those
      are stored that were neither last completed by a recovery (`stepped`) nor refused or
      evicted (`lost`). */
  ghost predicate GridKept(interval: nat, completed: nat, stepped: set<nat>, lost: set<int>, keys: set<int>) {
    && interval > 0
    && (forall c :: c in keys ==> c < completed && (c >= 0 ==> OnGrid(c, interval)))
    && (forall f :: f in stepped ==> f < completed)
    && (forall f: nat :: f < completed && OnGrid(f, interval) ==> (f in keys <==> f !in stepped && f !in lost))
  }

  /** A frame completed for the first time is not stored yet. */
  lemma FrontAdvances(interval: nat, completed: nat, stepped: set<nat>, lost: set<int>, keys: set<int>)
    requires GridKept(interval, completed, stepped, lost, keys)
    ensures GridKept(interval, completed + 1, stepped + {completed}, lost, keys)
  {
  }

  /** The newest frame was played: it is captured, and what the ring evicted for it is lost. */
  lemma FrontCaptured(interval: nat, completed: nat, stepped: set<nat>, lost: set<int>, keys: set<int>, after: set<int>)
    requires GridKept(interval, completed + 1, stepped, lost, keys) && OnGrid(completed, interval)
    requires completed in after && after <= keys + {completed}
    ensures GridKept(interval, completed + 1, stepped - {completed}, lost - {completed} + (keys - after), after)
  {
  }

  /** … or its capture is refused. */
  lemma FrontRefused(interval: nat, completed: nat, stepped: set<nat>, lost: set<int>, keys: set<int>)
    requires GridKept(interval, completed + 1, stepped, lost, keys) && OnGrid(completed, interval)
    ensures GridKept(interval, completed + 1, stepped - {completed},
                     if completed in keys then lost else lost + {completed}, keys)
  {
  }

  ghost predicate WithinBudget(entries: seq<Entry>, budget: nat, asked: nat, refused: bool, lost: set<int>) {
    Total(entries) <= asked && (asked <= budget && !refused ==> lost == {})
  }

  /** What is missing after a capture was asked for. */
  ghost function LostAfter(captured: bool, frame: nat, lost: set<int>, keys: set<int>, after: set<int>): set<int> {
    if captured then lost - {frame} + (keys - after) else if frame in keys then lost else lost + {frame}
  }

  lemma CaptureAccounts(entries: seq<Entry>, budget: nat, frame: nat, size: nat, exported: bool,
                        asked: nat, refused: bool, lost: set<int>, after: seq<Entry>)
    requires RingOk(entries) && WithinBudget(entries, budget, asked, refused, lost)
    requires after == if exported && Fits(entries, size, budget) then Stored(entries, budget, frame, size) else entries
    ensures WithinBudget(after, budget, asked + size, refused || !exported,
                         LostAfter(exported && Fits(entries, size, budget), frame, lost,
                                   Frames(entries), Frames(after)))
  {
    StoreAccounts(entries, budget, frame, size, asked);
  }

  function Max(a: nat, b: nat): nat { if a < b then b else a }

  function SizeIn<S>(s: Stimulus<S>): nat { if s.FrameTurn? then s.size else 0 }

  predicate Exports<S>(s: Stimulus<S>) { s.FrameTurn? ==> s.exported }

  /** The bytes of every capture a script could ask for. */
  function SizesIn<S>(script: seq<Stimulus<S>>): nat {
    if script == [] then 0 else SizesIn(script[..|script| - 1]) + SizeIn(script[|script| - 1])
  }

  // ---------------------------------------------------------------------------------------
  // Where an attempt to reach a frame stops.
  // ---------------------------------------------------------------------------------------

  /** The first frame of from..goal after which the time limit is exceeded; the goal if none. */
  function StopAt(late: set<nat>, from: nat, goal: nat): (stop: nat)
    requires from <= goal
    ensures from <= stop <= goal
    decreases goal - from
  {
    if from in late || from == goal then from else StopAt(late, from + 1, goal)
  }

  lemma {:induction false} NeverLate(from: nat, goal: nat)
    requires from <= goal
    ensures StopAt({}, from, goal) == goal
    decreases goal - from
  {
    if from < goal { NeverLate(from + 1, goal); }
  }

  predicate StepsTo(at: Option<nat>, goal: nat) { at.Some? && goal == at.value + 1 }

  /** Whether an attempt without a throwing step gets there, restoring `checkpoint` if it must. */
  predicate Reaches<S>(at: Option<nat>, checkpoint: int, goal: nat, w: Weather<S>)
    requires INITIAL_FRAME <= checkpoint < goal
  {
    if StepsTo(at, goal) then goal !in w.late
    else w.restore.Accepted? && StopAt(w.late, checkpoint + 1, goal) == goal && goal !in w.late
  }

  lemma ClearReaches<S>(at: Option<nat>, checkpoint: int, goal: nat, w: Weather<S>)
    requires INITIAL_FRAME <= checkpoint < goal && w.Clear()
    ensures Reaches(at, checkpoint, goal, w)
  {
    NeverLate(checkpoint + 1, goal);
  }

  /** The frame such an attempt leaves the session at. */
  function Stop<S>(at: Option<nat>, checkpoint: int, goal: nat, w: Weather<S>): Option<nat>
    requires INITIAL_FRAME <= checkpoint < goal
  {
    if StepsTo(at, goal) then Some(goal)
    else match w.restore
      case Accepted => Some(StopAt(w.late, checkpoint + 1, goal))
      case CoreRejected => at
      case LaterRejected(_) => None
  }

  // ---------------------------------------------------------------------------------------
  // What the session needs to know of the controller.
  // ---------------------------------------------------------------------------------------

  predicate EndsLoop(c: Command, closes: bool) {
    c.AdvanceTake? || c.FinishTraversal? || c.Close? || (c.ConfirmLinearResult? && closes)
  }

  /** The pictures an order presents: only ever the session's own frame. */
  function Pictures<S>(c: Command, at: Option<nat>, view: Option<Engine<S>>, phase: Phase): seq<(nat, Engine<S>)> {
    if at.None? || view.None? then []
    else if || c == PresentFrame(at.value)
            || (c.Notify? && phase != Playing)
            || (c.ToggleDebug? && phase == Paused)
    then [(at.value, view.value)] else []
  }

  function AllPictures<S>(commands: seq<Command>, at: Option<nat>, view: Option<Engine<S>>, phase: Phase)
    : seq<(nat, Engine<S>)>
  {
    if commands == [] then []
    else AllPictures(commands[..|commands| - 1], at, view, phase) + Pictures(commands[|commands| - 1], at, view, phase)
  }

  /** None of the orders presents anything. */
  predicate Pictureless(commands: seq<Command>) {
    forall i :: 0 <= i < |commands| ==>
      !commands[i].PresentFrame? && !commands[i].Notify? && !commands[i].ToggleDebug?
  }

  /** The session's own frame is all that orders present. */
  lemma {:induction false} AllPicturesAre<S>(
    commands: seq<Command>, at: Option<nat>, view: Option<Engine<S>>, phase: Phase)
    ensures forall p :: p in AllPictures(commands, at, view, phase) ==>
                          at.Some? && view.Some? && p == (at.value, view.value)
    ensures Pictureless(commands) ==> AllPictures(commands, at, view, phase) == []
  {
    if commands != [] { AllPicturesAre(commands[..|commands| - 1], at, view, phase); }
  }

  lemma OneMoreOrder<S>(
    commands: seq<Command>, i: nat, closes: bool, at: Option<nat>, view: Option<Engine<S>>, phase: Phase)
    requires i < |commands|
    ensures AllPictures(commands[..i + 1], at, view, phase) ==
            AllPictures(commands[..i], at, view, phase) + Pictures(commands[i], at, view, phase)
    ensures SomeEnds(commands[..i + 1], closes) == (SomeEnds(commands[..i], closes) || EndsLoop(commands[i], closes))
    ensures Confirms(commands[..i + 1]) == (Confirms(commands[..i]) || commands[i].ConfirmLinearResult?)
  {
    assert commands[..i + 1][..i] == commands[..i];
  }

  predicate SomeEnds(commands: seq<Command>, closes: bool) {
    commands != [] && (SomeEnds(commands[..|commands| - 1], closes) || EndsLoop(commands[|commands| - 1], closes))
  }

  predicate Confirms(commands: seq<Command>) {
    commands != [] && (Confirms(commands[..|commands| - 1]) || commands[|commands| - 1].ConfirmLinearResult?)
  }

  lemma {:induction false} NoneEnds(commands: seq<Command>)
    requires forall i :: 0 <= i < |commands| ==> !EndsLoop(commands[i], false)
    ensures !SomeEnds(commands, false)
  {
    if commands != [] { NoneEnds(commands[..|commands| - 1]); }
  }

  lemma {:induction false} NoneConfirms(commands: seq<Command>)
    requires forall i :: 0 <= i < |commands| ==> !commands[i].ConfirmLinearResult?
    ensures !Confirms(commands)
  {
    if commands != [] { NoneConfirms(commands[..|commands| - 1]); }
  }

  /** The orders that end the loop come with the phases that are over, and only the last frame
      confirms the linear result. */
  lemma EndsMeansOver(c: Controller, e: Event)
    ensures SomeEnds(React(c, e).commands, false) ==> React(c, e).next.Over()
    ensures Confirms(React(c, e).commands) ==> e.FrameDone? && e.frame + 1 >= c.frames
  {
    var r := React(c, e);
    NothingEnds(c, e);
    NothingConfirms(c, e);
    if !r.next.Over() { NoneEnds(r.commands); }
    if !(e.FrameDone? && e.frame + 1 >= c.frames) { NoneConfirms(r.commands); }
  }

  lemma NothingEnds(c: Controller, e: Event)
    ensures !React(c, e).next.Over() ==>
              forall i :: 0 <= i < |React(c, e).commands| ==> !EndsLoop(React(c, e).commands[i], false)
  {
    if e.KeyPressed? { NoKeyEnds(c, e.action, e.activity); }
  }

  lemma NoKeyEnds(c: Controller, action: KeyAction, activity: FrameActivity)
    ensures !OnKey(c, action, activity).next.Over() ==>
              forall i :: 0 <= i < |OnKey(c, action, activity).commands| ==>
                            !EndsLoop(OnKey(c, action, activity).commands[i], false)
  {
  }

  lemma NothingConfirms(c: Controller, e: Event)
    ensures !(e.FrameDone? && e.frame + 1 >= c.frames) ==>
              forall i :: 0 <= i < |React(c, e).commands| ==> !React(c, e).commands[i].ConfirmLinearResult?
  {
  }

  /** A recovery under way has its target below the position. */
  predicate GoesBack(c: Controller) {
    c.phase.Recovering? ==> c.position.Some? && c.target.Or(0) < c.position.value
  }

  /** Only a step forward starts a recovery that does not go back. */
  lemma KeepsGoingBack(c: Controller, e: Event)
    requires Inv(c)
    ensures GoesBack(c) && !(e.KeyPressed? && e.action.Right?) ==> GoesBack(React(c, e).next)
  {
  }

  // ---------------------------------------------------------------------------------------
  // The event a stimulus stands for.
  // ---------------------------------------------------------------------------------------

  /** The events that stand for a stimulus: a key, a loss, its end and a cancellation for
      themselves; a turn for the slot of the next take, or the next frame if it could be produced;
      a recovery for its outcome. */
  predicate Stands<S>(s: Stimulus<S>, c: Controller, failed: bool, events: seq<Event>) {
    match s
    case KeyPress(action) => events == [KeyPressed(action, BetweenFrames)]
    case Loss(cause) => events == [PresentationLost(cause)]
    case Back => events == [PresentationBack]
    case Quit => events == [Cancelled]
    case Redraw => events == []
    case FrameTurn(_, _, _, _) =>
      if c.phase.Playing? && c.takeEndPending then events == [TakeSlot]
      else if (c.phase.Playing? || c.phase.Pausing?) && !failed then events == [FrameDone(c.NextFrame())]
      else events == []
    case Recovery(_, _, _) =>
      if c.phase.Recovering? then |events| == 1 && events[0].RecoveryDone? else events == []
  }

  /** At most one event, an allowed one, and the controller follows it. */
  predicate OneStep(before: Controller, after: Controller, events: seq<Event>) {
    if events == [] then after == before
    else |events| == 1 && Allowed(before, events[0]) && after == React(before, events[0]).next
  }

  function OrdersOf(c: Controller, events: seq<Event>): seq<Command> {
    if events == [] then [] else React(c, events[0]).commands
  }

  predicate Closes<S>(s: Stimulus<S>) { s.FrameTurn? && s.closes }

  predicate Throws<S>(s: Stimulus<S>) {
    (s.FrameTurn? && s.throws) || (s.Recovery? && (s.first.throws != {} || s.second.throws != {}))
  }

  /** Step i of a run stands for its stimulus. */
  ghost predicate StandsAt<S>(script: seq<Stimulus<S>>, from: Controller, steps: seq<seq<Event>>, i: nat) {
    && i < |script| && i < |steps|
    && Stands(script[i], InspectionState.Run(from, Flatten(steps[..i])).next, false, steps[i])
  }

  ghost predicate AllStand<S>(script: seq<Stimulus<S>>, from: Controller, steps: seq<seq<Event>>) {
    forall i :: 0 <= i < |steps| ==> StandsAt(script, from, steps, i)
  }

  lemma SlotOrders(c: Controller, closes: bool)
    ensures SomeEnds(React(c, TakeSlot).commands, closes) == SomeEnds(React(c, TakeSlot).commands, false)
    ensures !Confirms(React(c, TakeSlot).commands)
  {
    var xs := React(c, TakeSlot).commands;
    if xs != [] { assert xs[..0] == []; }
  }

  /** A presented recovery shows its target. */
  lemma PresentedShows<S>(c: Controller, v: Engine<S>)
    requires c.phase.Recovering? && c.target.Some?
    ensures AllPictures(React(c, RecoveryDone(Presented)).commands, c.target, Some(v), Paused) == [(c.target.value, v)]
  {
    var xs := React(c, RecoveryDone(Presented)).commands;
    assert xs == [PresentFrame(c.target.value)] && xs[..0] == [];
  }

  /** A run grows by a step. */
  lemma OneMoreStep(from: Controller, steps: seq<seq<Event>>, events: seq<Event>)
    requires Disciplined(from, Flatten(steps)) && |events| <= 1
    requires events != [] ==> Allowed(InspectionState.Run(from, Flatten(steps)).next, events[0])
    ensures Disciplined(from, Flatten(steps + [events]))
    ensures var before := InspectionState.Run(from, Flatten(steps));
            InspectionState.Run(from, Flatten(steps + [events])) ==
            (if events == [] then before
             else Reaction(React(before.next, events[0]).next,
                           before.commands + React(before.next, events[0]).commands))
    ensures Confirms(InspectionState.Run(from, Flatten(steps + [events])).commands) ==
            (Confirms(InspectionState.Run(from, Flatten(steps)).commands)
             || Confirms(OrdersOf(InspectionState.Run(from, Flatten(steps)).next, events)))
  {
    FlattenOneMore(steps, events);
    var all := Flatten(steps);
    if events == [] {
      assert all + events == all;
    } else {
      assert events == [events[0]];
      DisciplinedOneMore(from, all, events[0]);
      ConfirmsAppend(InspectionState.Run(from, all).commands,
                     React(InspectionState.Run(from, all).next, events[0]).commands);
    }
  }

  lemma OneMoreStands<S>(script: seq<Stimulus<S>>, from: Controller, steps: seq<seq<Event>>, events: seq<Event>)
    requires |steps| < |script| && AllStand(script, from, steps)
    requires Stands(script[|steps|], InspectionState.Run(from, Flatten(steps)).next, false, events)
    ensures AllStand(script, from, steps + [events])
  {
    var more := steps + [events];
    forall i | 0 <= i < |more| ensures StandsAt(script, from, more, i) {
      if i < |steps| {
        assert more[..i] == steps[..i];
        assert StandsAt(script, from, steps, i);
      } else {
        assert more[..i] == steps;
      }
    }
  }

  lemma DisciplinedOneMore(c: Controller, events: seq<Event>, e: Event)
    requires Disciplined(c, events) && Allowed(InspectionState.Run(c, events).next, e)
    ensures Disciplined(c, events + [e])
    ensures var before := InspectionState.Run(c, events);
            InspectionState.Run(c, events + [e]) ==
            Reaction(React(before.next, e).next, before.commands + React(before.next, e).commands)
  {
    var all := events + [e];
    assert all[..|events|] == events;
    forall i | 0 <= i < |all| ensures Allowed(InspectionState.Run(c, all[..i]).next, all[i]) {
      if i < |events| { assert all[..i] == events[..i]; }
    }
  }

  lemma {:induction false} ConfirmsAppend(a: seq<Command>, b: seq<Command>)
    ensures Confirms(a + b) == (Confirms(a) || Confirms(b))
    decreases |b|
  {
    if b == [] {
      assert a + b == a;
    } else {
      ConfirmsAppend(a, b[..|b| - 1]);
      AppendLast(a, b);
      assert (a + b)[..|a + b| - 1] == a + b[..|b| - 1];
    }
  }

  class ReplaySession<S, I> {
    const step: (S, I) -> S
    const inputs: seq<I>
    const initial: Engine<S>
    const controller: InspectionController
    const store: CheckpointStore<Engine<S>>

    var engine: Engine<S>
    /** Whether there is a usable session at all. */
    var armed: bool
    var engineBase: Option<nat>
    var sessionFrame: Option<nat>
    var view: Option<Engine<S>>
    var framesCompleted: nat
    var loopFailed: bool
    var confirmedLinear: bool
    var postEndRuns: nat
    var done: bool
    var failed: bool
    var shown: seq<(nat, Engine<S>)>
    /** Frames whose latest completion as the newest frame was a recovery's; captures refused or
        evicted; the bytes of all captures asked for; whether an export ever failed; and the
        Engine steps done. */
    ghost var stepped: set<nat>
    ghost var lost: set<int>
    ghost var asked: nat
    ghost var refused: bool
    ghost var simulated: nat

    function Advance(e: Engine<S>, input: I): Engine<S> {
      Engine(step(e.core, input), e.frameIndex + 1)
    }

    /** The plain replay: the Engine after the first n recorded inputs, from left to right. */
    ghost function After(n: nat): (e: Engine<S>)
      requires n <= |inputs|
      ensures e.frameIndex == initial.frameIndex + n
    {
      if n == 0 then initial else Advance(After(n - 1), inputs[n - 1])
    }

    /** Every stored checkpoint is the plain replay's state after its frame. */
    ghost predicate StoreOk()
      reads this`framesCompleted, store, store.ring
    {
      && store.Valid() && HasInitial(store.ring.entries)
      && framesCompleted <= |inputs|
      && forall c :: c in store.checkpoints ==>
           0 <= c + 1 <= framesCompleted && store.checkpoints[c] == After(c + 1)
    }

    ghost predicate MachineOk()
      reads this`framesCompleted, controller
    {
      && controller.frames == |inputs| > 0
      && Inv(controller.View())
      && (controller.position.Some? ==> controller.position.value < framesCompleted)
    }

    ghost predicate BaseOk()
      reads this`framesCompleted, this`engineBase
    {
      if engineBase.Some? then engineBase.value == initial.frameIndex else framesCompleted == 0
    }

    /** Every picture presented so far is the one the plain replay shows for its frame. */
    ghost predicate ShownOk()
      reads this`shown
    {
      forall i :: 0 <= i < |shown| ==> PictureOk(shown[i])
    }

    /** Whenever the session's frame is known, the Engine is where the plain replay is, and the
        picture at hand is the picture of that frame. */
    ghost predicate Known()
      reads this`framesCompleted, this`sessionFrame, this`engine, this`view, this`armed
    {
      && framesCompleted <= |inputs|
      && (armed && sessionFrame.Some? ==>
            sessionFrame.value < framesCompleted && engine == After(sessionFrame.value + 1))
      && (armed && view.Some? ==> sessionFrame.Some? && view.value == engine)
    }

    /** The session stands at the controller's position. A take interrupted before its frame 0
        has no position yet: the session is then at its start, or at frame 0. */
    ghost predicate Tracking()
      reads this`sessionFrame, this`engine, controller
    {
      if controller.position.Some? then sessionFrame == controller.position
      else sessionFrame == Some(0) || (sessionFrame == None && engine == initial)
    }

    ghost predicate GridOk()
      reads this`framesCompleted, this`stepped, this`lost, store
    {
      GridKept(store.ring.interval, framesCompleted, stepped, lost, store.checkpoints.Keys)
    }

    /** As long as everything asked for fits the budget together and was exported, nothing is
        lost. */
    ghost predicate BudgetOk()
      reads this`asked, this`refused, this`lost, store.ring
    {
      WithinBudget(store.ring.entries, store.ring.budget, asked, refused, lost)
    }

    /** What the store holds and what it is missing. */
    ghost predicate LedgerOk()
      reads this`framesCompleted, this`stepped, this`lost, this`asked, this`refused, store, store.ring
    {
      GridOk() && BudgetOk()
    }

    ghost predicate Valid()
      reads this, controller, store, store.ring
    {
      && StoreOk() && MachineOk() && BaseOk() && ShownOk()
      && (!failed ==> Known()) && (!failed && !done ==> armed)
      && (!failed && !done && !controller.View().Over() ==> Tracking())
    }

    constructor (step: (S, I) -> S, inputs: seq<I>, initial: Engine<S>, lastTake: bool,
                 interval: nat, budget: nat, initialSize: nat)
      requires inputs != [] && 2 * budget < TWO_64
      ensures Valid() && LedgerOk() && fresh(controller) && fresh(store) && fresh(store.ring)
      ensures this.step == step && this.inputs == inputs && this.initial == initial
      ensures !done && !failed && !loopFailed && !confirmedLinear && shown == [] && sessionFrame == None
      ensures controller.View() == InspectionState.Initial(|inputs|, lastTake).(phase := Playing)
      ensures store.ring.interval == (if interval == 0 then 1 else interval) && store.ring.budget == budget
      ensures store.ring.entries == [Entry(INITIAL_FRAME, initialSize)]
      ensures framesCompleted == 0 && stepped == {} && lost == {} && asked == initialSize && !refused
    {
      this.step, this.inputs, this.initial := step, inputs, initial;
      var checkpoints := new CheckpointStore<Engine<S>>(interval, budget);
      var captured := checkpoints.Capture(initial, INITIAL_FRAME, true, initialSize);
      var machine := new InspectionController(|inputs|, lastTake);
      machine.Prepared();
      controller, store := machine, checkpoints;
      engine, armed, engineBase, sessionFrame, view := initial, true, None, None, None;
      framesCompleted, loopFailed, confirmedLinear, postEndRuns := 0, false, false, 0;
      done, failed, shown := false, false, [];
      stepped, lost, asked, refused, simulated := {}, {}, initialSize, false, 0;
      new;
      assert store.ring.entries == [Entry(INITIAL_FRAME, initialSize)] by {
        assert store.ring.entries[1..] == [];
      }
      assert Frames(store.ring.entries) == {INITIAL_FRAME};
    }

    /** Presents the picture at hand, if there is one, as `frame`. */
    method Show(frame: nat)
      modifies this`shown
      ensures shown == old(shown) + (if view.Some? then [(frame, view.value)] else [])
    {
      if view.Some? { shown := shown + [(frame, view.value)]; }
    }

    /** Produces a frame of the take: the next linear input, or a recorded one again. */
    method Produce(frame: nat, throws: bool) returns (ok: bool)
      requires framesCompleted <= |inputs| && GridOk()
      requires if engineBase.Some? then engineBase.value == initial.frameIndex
               else framesCompleted == 0 && engine.frameIndex == initial.frameIndex
      modifies this`engine, this`engineBase, this`sessionFrame, this`view, this`framesCompleted, this`loopFailed,
               this`stepped, this`simulated
      ensures GridOk() && simulated == old(simulated) + if ok then 1 else 0
      ensures stepped == old(stepped) + if framesCompleted > old(framesCompleted) then {frame} else {}
      ensures ok <==> frame <= old(framesCompleted) && frame < |inputs| && !throws
                      && (frame == old(framesCompleted) ==> !old(loopFailed))
                      && old(engine).frameIndex == initial.frameIndex + frame
      ensures ok ==>
                && engine == Advance(old(engine), inputs[frame])
                && sessionFrame == Some(frame) && view == Some(engine)
      ensures !ok && old(engine).frameIndex == initial.frameIndex + frame ==>
                engine == old(engine) && sessionFrame == old(sessionFrame) && view == old(view)
      ensures framesCompleted == old(framesCompleted) ||
              (framesCompleted == old(framesCompleted) + 1 <= |inputs| && frame == old(framesCompleted))
      ensures ok ==> frame < framesCompleted
      ensures loopFailed == old(loopFailed) || (throws && frame == old(framesCompleted))
      ensures if engineBase.Some? then engineBase.value == initial.frameIndex else framesCompleted == 0
    {
      if frame == framesCompleted {
        if loopFailed || frame >= |inputs| { return false; }
        if throws {
          loopFailed := true;
          return false;
        }
        engine := Advance(engine, inputs[frame]);
        view := Some(engine);
        FrontAdvances(store.ring.interval, framesCompleted, stepped, lost, store.checkpoints.Keys);
        framesCompleted := framesCompleted + 1;
        stepped := stepped + {frame};
      } else if frame < framesCompleted && frame < |inputs| {
        if throws { return false; }
        engine := Advance(engine, inputs[frame]);
        view := Some(engine);
      } else {
        return false;
      }
      if engineBase.None? { engineBase := Some(engine.frameIndex - frame - 1); }
      if engine.frameIndex != engineBase.value + frame + 1 { return false; }
      sessionFrame := Some(frame);
      simulated := simulated + 1;
      return true;
    }

    /** Restores a stored checkpoint. A rejected core leaves the session untouched; any later
        rejection leaves it in an unknown state. */
    method Restore(checkpoint: int, answer: RestoreAnswer<S>) returns (ok: bool)
      requires checkpoint >= INITIAL_FRAME
      modifies this`engine, this`sessionFrame, this`view
      ensures ok <==> checkpoint in store.checkpoints && answer.Accepted?
      ensures ok ==> engine == store.checkpoints[checkpoint] && view == None
                     && sessionFrame == if checkpoint < 0 then None else Some(checkpoint)
      ensures !ok && !answer.LaterRejected? ==>
                engine == old(engine) && sessionFrame == old(sessionFrame) && view == old(view)
      ensures !ok && answer.LaterRejected? && checkpoint in store.checkpoints ==> sessionFrame == None && view == None
      ensures !ok && checkpoint !in store.checkpoints ==>
                engine == old(engine) && sessionFrame == old(sessionFrame) && view == old(view)
    {
      if checkpoint !in store.checkpoints { return false; }
      match answer
      case Accepted =>
        engine := store.checkpoints[checkpoint];
        sessionFrame := if checkpoint < 0 then None else Some(checkpoint);
        view := None;
        return true;
      case CoreRejected =>
        return false;
      case LaterRejected(left) =>
        engine := left;
        sessionFrame := None;
        view := None;
        return false;
    }

    /** Re-simulates the recorded frames from..goal; the time limit is read after each one. */
    method Resimulate(from: nat, goal: nat, w: Weather<S>) returns (all: bool)
      requires BaseOk() && Known() && GridOk() && armed && from <= goal < |inputs|
      requires from <= framesCompleted && engine == After(from)
      requires if from == 0 then sessionFrame == None else sessionFrame == Some(from - 1)
      modifies this`engine, this`engineBase, this`sessionFrame, this`view, this`framesCompleted, this`loopFailed,
               this`stepped, this`simulated
      ensures BaseOk() && Known() && GridOk()
      ensures all ==> sessionFrame == Some(goal) && view == Some(engine)
      ensures all ==> simulated == old(simulated) + (goal + 1 - from)
      ensures w.throws == {} && (!old(loopFailed) || goal < old(framesCompleted)) ==>
                && sessionFrame == Some(StopAt(w.late, from, goal))
                && (all <==> StopAt(w.late, from, goal) == goal && goal !in w.late)
      ensures framesCompleted >= old(framesCompleted)
      ensures goal < old(framesCompleted) ==> stepped == old(stepped)
      ensures loopFailed == old(loopFailed) || w.throws != {}
    {
      var frame := from;
      while frame <= goal
        invariant from <= frame <= goal + 1
        invariant BaseOk() && Known() && GridOk()
        invariant frame <= framesCompleted && engine == After(frame)
        invariant if frame == 0 then sessionFrame == None else sessionFrame == Some(frame - 1)
        invariant frame > from ==> view == Some(engine)
        invariant simulated == old(simulated) + (frame - from)
        invariant StopAt(w.late, from, goal) == if frame <= goal then StopAt(w.late, frame, goal) else goal
        invariant frame > goal ==> goal !in w.late
        invariant framesCompleted >= old(framesCompleted)
        invariant goal < old(framesCompleted) ==> framesCompleted == old(framesCompleted) && stepped == old(stepped)
        invariant loopFailed == old(loopFailed)
        invariant old(loopFailed) && frame > old(framesCompleted) ==> goal >= old(framesCompleted)
      {
        var ok := ProduceNext(frame, frame in w.throws);
        if !ok { return false; }
        if frame in w.late { return false; }
        frame := frame + 1;
      }
      return true;
    }

    /** The checkpoint a restore to `goal` starts from. */
    ghost function From(goal: nat): (c: int)
      requires StoreOk()
      reads this`framesCompleted, store, store.ring
      ensures INITIAL_FRAME <= c < goal && c in store.checkpoints && c + 1 <= framesCompleted
    {
      RestoreIsNearest(store.ring.entries, goal);
      PlanRestore(store.ring.entries, goal).checkpoint
    }

    /** Reaches `goal` silently, from where the session is or from a checkpoint. */
    method Reach(goal: nat, w: Weather<S>) returns (reached: bool)
      requires StoreOk() && BaseOk() && Known() && GridOk() && armed && goal < |inputs|
      modifies this`engine, this`engineBase, this`sessionFrame, this`view, this`framesCompleted, this`loopFailed,
               this`stepped, this`simulated
      ensures StoreOk() && BaseOk() && Known() && GridOk()
      ensures reached ==> sessionFrame == Some(goal) && view == Some(engine)
      ensures reached ==>
                simulated == old(simulated) + if StepsTo(old(sessionFrame), goal) then 1 else goal - From(goal)
      ensures w.throws == {} && (!old(loopFailed) || goal < old(framesCompleted)) ==>
                && sessionFrame == Stop(old(sessionFrame), From(goal), goal, w)
                && (reached <==> Reaches(old(sessionFrame), From(goal), goal, w))
      ensures w.Clear() && (!old(loopFailed) || goal < old(framesCompleted)) ==> reached
      ensures framesCompleted >= old(framesCompleted)
      ensures goal < old(framesCompleted) ==> stepped == old(stepped)
      ensures loopFailed == old(loopFailed) || w.throws != {}
    {
      if w.Clear() { ClearReaches(sessionFrame, From(goal), goal, w); }
      if sessionFrame.Some? && PlanRecovery(store.ring.entries, sessionFrame.value, goal).StepPlan? {
        reached := Resimulate(goal, goal, w);
      } else {
        reached := RestoreAndReplay(goal, w);
      }
    }

    /** Restores the checkpoint nearest below the goal and replays from there. */
    method RestoreAndReplay(goal: nat, w: Weather<S>) returns (reached: bool)
      requires StoreOk() && BaseOk() && Known() && GridOk() && armed && goal < |inputs|
      modifies this`engine, this`engineBase, this`sessionFrame, this`view, this`framesCompleted, this`loopFailed,
               this`stepped, this`simulated
      ensures BaseOk() && Known() && GridOk()
      ensures reached ==> sessionFrame == Some(goal) && view == Some(engine)
      ensures reached ==> simulated == old(simulated) + (goal - old(From(goal)))
      ensures w.throws == {} && (!old(loopFailed) || goal < old(framesCompleted)) ==>
                && (reached <==>
                    w.restore.Accepted? && StopAt(w.late, old(From(goal)) + 1, goal) == goal && goal !in w.late)
                && sessionFrame == match w.restore {
                                     case Accepted => Some(StopAt(w.late, old(From(goal)) + 1, goal))
                                     case CoreRejected => old(sessionFrame)
                                     case LaterRejected(_) => None
                                   }
      ensures framesCompleted >= old(framesCompleted)
      ensures goal < old(framesCompleted) ==> stepped == old(stepped)
      ensures loopFailed == old(loopFailed) || w.throws != {}
    {
      RestoreIsNearest(store.ring.entries, goal);
      var plan := PlanRestore(store.ring.entries, goal);
      var restored := Restore(plan.checkpoint, w.restore);
      if !restored { return false; }
      reached := Resimulate(plan.replayFrom, goal, w);
    }

    /** Re-arms a frozen session; its position is unknown until a checkpoint is restored. A
        failed re-arm leaves no usable session, and the frame it was at is not forgotten. */
    method Rearm(rearmed: Option<Engine<S>>) returns (ok: bool)
      modifies this`engine, this`armed, this`sessionFrame, this`view, this`postEndRuns
      ensures (ok <==> rearmed.Some?) && armed == ok
      ensures postEndRuns == old(postEndRuns) + 1
      ensures ok ==> engine == rearmed.value && sessionFrame == None && view == None
      ensures !ok ==> sessionFrame == old(sessionFrame) && view == old(view)
    {
      postEndRuns := postEndRuns + 1;
      armed := false;
      if rearmed.None? { return false; }
      engine, armed, sessionFrame, view := rearmed.value, true, None, None;
      return true;
    }

    /** The first recovery after the linear result was confirmed re-arms the session. */
    method RearmAfterEnd(rearmed: Option<Engine<S>>) returns (ready: bool)
      requires Known() && armed
      modifies this`engine, this`armed, this`sessionFrame, this`view, this`postEndRuns
      ensures Known() && armed == ready
      ensures ready <==> rearmed.Some? || !old(Rearms())
      ensures ready ==> sessionFrame == if old(Rearms()) then None else old(sessionFrame)
    {
      ready := true;
      if confirmedLinear && postEndRuns == 0 { ready := Rearm(rearmed); }
    }

    predicate Rearms()
      reads this`confirmedLinear, this`postEndRuns
    {
      confirmedLinear && postEndRuns == 0
    }

    /** Back to the last confirmed position. */
    method ReturnTo(confirmed: nat, w: Weather<S>) returns (restored: bool)
      requires StoreOk() && BaseOk() && ShownOk() && Known() && GridOk() && armed && confirmed < |inputs|
      modifies this`engine, this`engineBase, this`sessionFrame, this`view, this`framesCompleted, this`loopFailed,
               this`shown, this`stepped, this`simulated
      ensures StoreOk() && BaseOk() && ShownOk() && Known() && GridOk()
      ensures restored ==> sessionFrame == Some(confirmed)
      ensures w.throws == {} && (!old(loopFailed) || confirmed < old(framesCompleted)) ==>
                (restored <==> old(sessionFrame) == Some(confirmed)
                               || Reaches(old(sessionFrame), From(confirmed), confirmed, w))
      ensures w.Clear() && confirmed < old(framesCompleted) ==> restored
      ensures loopFailed == old(loopFailed) || w.throws != {}
      ensures framesCompleted >= old(framesCompleted)
      ensures confirmed < old(framesCompleted) ==> stepped == old(stepped)
    {
      restored := sessionFrame == Some(confirmed);
      if !restored { restored := Reach(confirmed, w); }
      if restored { Show(confirmed); }
    }

    /** How an attempt from `at` ends when no step throws: whether the target is reached, and
        otherwise whether the session is back at the confirmed frame. */
    ghost function Outcome(at: Option<nat>, target: nat, confirmed: nat, first: Weather<S>, second: Weather<S>)
      : RecoveryOutcome
      requires StoreOk()
      reads this`framesCompleted, store, store.ring
    {
      if Reaches(at, From(target), target, first) then Presented
      else
        var left := Stop(at, From(target), target, first);
        if left == Some(confirmed) || Reaches(left, From(confirmed), confirmed, second) then FailedRestored
        else FailedUnrecoverable
    }

    /** Reaches the target and presents it, or returns to the confirmed position, or gives up. */
    method Attempt(target: nat, confirmed: nat, first: Weather<S>, second: Weather<S>)
      returns (outcome: RecoveryOutcome)
      requires StoreOk() && BaseOk() && ShownOk() && Known() && GridOk() && armed
      requires target < |inputs| && confirmed < |inputs|
      modifies this`engine, this`engineBase, this`sessionFrame, this`view, this`framesCompleted, this`loopFailed,
               this`shown, this`stepped, this`simulated
      ensures StoreOk() && BaseOk() && ShownOk() && Known() && GridOk()
      ensures outcome.Presented? ==>
                && sessionFrame == Some(target) && shown == old(shown) + [(target, After(target + 1))]
                && simulated == old(simulated) + if StepsTo(old(sessionFrame), target) then 1 else target - From(target)
      ensures outcome.FailedRestored? ==> sessionFrame == Some(confirmed)
      ensures !old(loopFailed) && first.throws == {} && second.throws == {} ==>
                outcome == old(Outcome(sessionFrame, target, confirmed, first, second))
      ensures !old(loopFailed) && first.Clear() ==> outcome.Presented? && !loopFailed
      ensures second.Clear() && confirmed < old(framesCompleted) ==> !outcome.FailedUnrecoverable?
      ensures framesCompleted >= old(framesCompleted)
      ensures target < old(framesCompleted) && confirmed < old(framesCompleted) ==> stepped == old(stepped)
      ensures loopFailed == old(loopFailed) || first.throws != {} || second.throws != {}
      ensures outcome.Presented? ==> view == Some(After(target + 1))
    {
      var reached := ReachAndShow(target, first);
      outcome := Presented;
      if !reached {
        var restored := ReturnTo(confirmed, second);
        outcome := if restored then FailedRestored else FailedUnrecoverable;
      }
    }

    method ReachAndShow(goal: nat, w: Weather<S>) returns (reached: bool)
      requires StoreOk() && BaseOk() && ShownOk() && Known() && GridOk() && armed && goal < |inputs|
      modifies this`engine, this`engineBase, this`sessionFrame, this`view, this`framesCompleted, this`loopFailed,
               this`shown, this`stepped, this`simulated
      ensures StoreOk() && BaseOk() && ShownOk() && Known() && GridOk()
      ensures reached ==> view == Some(After(goal + 1))
      ensures reached ==>
                && sessionFrame == Some(goal) && shown == old(shown) + [(goal, After(goal + 1))]
                && simulated == old(simulated) + if StepsTo(old(sessionFrame), goal) then 1 else goal - From(goal)
      ensures w.throws == {} && (!old(loopFailed) || goal < old(framesCompleted)) ==>
                && sessionFrame == Stop(old(sessionFrame), From(goal), goal, w)
                && (reached <==> Reaches(old(sessionFrame), From(goal), goal, w))
      ensures w.Clear() && (!old(loopFailed) || goal < old(framesCompleted)) ==> reached
      ensures framesCompleted >= old(framesCompleted)
      ensures goal < old(framesCompleted) ==> stepped == old(stepped)
      ensures loopFailed == old(loopFailed) || w.throws != {}
    {
      reached := Reach(goal, w);
      if reached { Show(goal); }
    }

    /** A recovery: the first one after the end re-arms the session. */
    method Recover(target: nat, rearmed: Option<Engine<S>>, first: Weather<S>, second: Weather<S>)
      returns (outcome: RecoveryOutcome)
      requires StoreOk() && BaseOk() && MachineOk() && ShownOk() && Known() && GridOk() && armed && target < |inputs|
      modifies this`engine, this`armed, this`engineBase, this`sessionFrame, this`view, this`framesCompleted,
               this`loopFailed, this`postEndRuns, this`shown, this`stepped, this`simulated
      ensures StoreOk() && BaseOk() && ShownOk() && Known() && GridOk() && (armed || outcome.FailedUnrecoverable?)
      ensures outcome.Presented? ==>
                && sessionFrame == Some(target) && shown == old(shown) + [(target, After(target + 1))]
                && simulated == old(simulated) + if StepsTo(old(Start()), target) then 1 else target - From(target)
      ensures outcome.FailedRestored? ==> sessionFrame == Some(controller.position.Or(0))
      ensures old(Rearms()) && rearmed.None? ==> outcome.FailedUnrecoverable?
      ensures !(old(Rearms()) && rearmed.None?) && !old(loopFailed) && first.throws == {} && second.throws == {} ==>
                outcome == old(Outcome(Start(), target, controller.position.Or(0), first, second))
      ensures !old(loopFailed) && rearmed.Some? && first.Clear() ==> outcome.Presented? && !loopFailed
      ensures rearmed.Some? && second.Clear() && controller.position.Some? ==> !outcome.FailedUnrecoverable?
      ensures framesCompleted >= old(framesCompleted)
      ensures target < old(framesCompleted) && controller.position.Some? ==> stepped == old(stepped)
      ensures loopFailed == old(loopFailed) || first.throws != {} || second.throws != {}
      ensures outcome.Presented? ==> view == Some(After(target + 1))
    {
      var confirmed := controller.position.Or(0);
      var ready := RearmAfterEnd(rearmed);
      outcome := FailedUnrecoverable;
      if ready { outcome := Attempt(target, confirmed, first, second); }
    }

    /** The frame a recovery starts from: unknown when it re-arms the session first. */
    function Start(): Option<nat>
      reads this`sessionFrame, this`confirmedLinear, this`postEndRuns
    {
      if Rearms() then None else sessionFrame
    }

    /** Carries out one order. `closes` is what ends the window at the end of the last take: a
        failed close, or the option to close there. */
    method Carry(c: Command, closes: bool)
      requires Known()
      modifies this`shown, this`confirmedLinear, this`done
      ensures shown == old(shown) + Pictures(c, sessionFrame, view, controller.phase)
      ensures done == (old(done) || EndsLoop(c, closes))
      ensures confirmedLinear == (old(confirmedLinear) || c.ConfirmLinearResult?)
    {
      match c
      case PresentFrame(frame) =>
        if sessionFrame == Some(frame) { Show(frame); }
      case Notify(_) =>
        if sessionFrame.Some? && controller.phase != Playing { Show(sessionFrame.value); }
      case ToggleDebug(_) =>
        if sessionFrame.Some? && controller.phase == Paused { Show(sessionFrame.value); }
      case ConfirmLinearResult(_) =>
        confirmedLinear := true;
        if closes { done := true; }
      case AdvanceTake(_) => done := true;
      case FinishTraversal(_) => done := true;
      case Close(_) => done := true;
      case _ =>
    }

    /** The picture is the one the plain replay shows for its frame. */
    ghost predicate PictureOk(p: (nat, Engine<S>)) {
      p.0 < |inputs| && p.1 == After(p.0 + 1)
    }

    /** Carries out the controller's orders in turn. */
    method Apply(commands: seq<Command>, closes: bool)
      requires ShownOk() && Known() && (armed || Pictureless(commands))
      modifies this`shown, this`confirmedLinear, this`done
      ensures ShownOk()
      ensures shown == old(shown) + AllPictures(commands, sessionFrame, view, controller.phase)
      ensures done == (old(done) || SomeEnds(commands, closes))
      ensures confirmedLinear == (old(confirmedLinear) || Confirms(commands))
    {
      AllPicturesAre(commands, sessionFrame, view, controller.phase);
      CarryAll(commands, closes);
      forall i | 0 <= i < |shown| ensures PictureOk(shown[i]) {
        if i < |old(shown)| {
          assert PictureOk(old(shown)[i]);
        } else {
          assert shown[i] in AllPictures(commands, sessionFrame, view, controller.phase);
        }
      }
    }

    method CarryAll(commands: seq<Command>, closes: bool)
      requires Known()
      modifies this`shown, this`confirmedLinear, this`done
      ensures shown == old(shown) + AllPictures(commands, sessionFrame, view, controller.phase)
      ensures done == (old(done) || SomeEnds(commands, closes))
      ensures confirmedLinear == (old(confirmedLinear) || Confirms(commands))
    {
      ghost var at, seen, phase := sessionFrame, view, controller.phase;
      for i := 0 to |commands|
        invariant shown == old(shown) + AllPictures(commands[..i], at, seen, phase)
        invariant done == (old(done) || SomeEnds(commands[..i], closes))
        invariant confirmedLinear == (old(confirmedLinear) || Confirms(commands[..i]))
      {
        OneMoreOrder(commands, i, closes, at, seen, phase);
        Carry(commands[i], closes);
      }
      assert commands[..|commands|] == commands;
    }

    /** The frame is the newest, on the grid, and its checkpoint fits beside the initial one. */
    predicate Captures(frame: nat, entries: seq<Entry>, size: nat)
      reads this`framesCompleted
    {
      && store.ring.interval > 0 && (frame + 1) % TWO_32 % store.ring.interval == 0
      && frame + 1 == framesCompleted
      && (if HasInitial(entries) then entries[0].size else 0) + size <= store.ring.budget
    }

    /** Keeps the state of a frame just produced linearly, on the capture grid. */
    method KeepCheckpoint(frame: nat, exported: bool, size: nat)
      requires StoreOk() && Known() && LedgerOk() && armed && sessionFrame == Some(frame)
      modifies store, store.ring, this`stepped, this`lost, this`asked, this`refused
      ensures StoreOk() && LedgerOk()
      ensures stepped == if frame + 1 == framesCompleted then old(stepped) - {frame} else old(stepped)
      ensures asked <= old(asked) + size && (refused ==> old(refused) || !exported)
      ensures !store.ring.ShouldCapture(frame) ==> store.ring.entries == old(store.ring.entries)
      ensures exported && Captures(frame, old(store.ring.entries), size) ==> frame in store.checkpoints
    {
      if frame + 1 == framesCompleted {
        if store.ring.ShouldCapture(frame) {
          CaptureFront(frame, exported, size);
        } else {
          stepped := stepped - {frame};
        }
      }
    }

    /** The state of the newest frame is captured as the plain replay's. */
    method KeepState(frame: nat, exported: bool, size: nat) returns (captured: bool)
      requires StoreOk() && Known() && armed && sessionFrame == Some(frame)
      modifies store, store.ring
      ensures StoreOk()
      ensures captured <==> exported && Fits(old(store.ring.entries), size, store.ring.budget)
      ensures !captured ==> store.checkpoints == old(store.checkpoints) && store.ring.entries == old(store.ring.entries)
      ensures captured ==> frame in store.checkpoints
                           && store.ring.entries == Stored(old(store.ring.entries), store.ring.budget, frame, size)
      ensures store.checkpoints.Keys <= old(store.checkpoints.Keys) + {frame}
    {
      captured := store.Capture(engine, frame, exported, size);
    }

    method CaptureFront(frame: nat, exported: bool, size: nat)
      requires StoreOk() && Known() && LedgerOk() && armed && sessionFrame == Some(frame)
      requires store.ring.ShouldCapture(frame) && frame + 1 == framesCompleted
      modifies store, store.ring, this`stepped, this`lost, this`asked, this`refused
      ensures StoreOk() && LedgerOk()
      ensures stepped == old(stepped) - {frame}
      ensures asked == old(asked) + size && refused == (old(refused) || !exported)
      ensures frame in store.checkpoints || !exported || !Fits(old(store.ring.entries), size, store.ring.budget)
    {
      ghost var keys, entries := store.checkpoints.Keys, store.ring.entries;
      var captured := KeepState(frame, exported, size);
      ghost var after := store.checkpoints.Keys;
      CaptureAccounts(entries, store.ring.budget, frame, size, exported, asked, refused, lost, store.ring.entries);
      if captured {
        FrontCaptured(store.ring.interval, frame, stepped, lost, keys, after);
      } else {
        FrontRefused(store.ring.interval, frame, stepped, lost, keys);
      }
      lost := LostAfter(captured, frame, lost, keys, after);
      stepped := stepped - {frame};
      asked, refused := asked + size, refused || !exported;
    }

    /** Tells the controller that the session's frame is complete. */
    method Complete(frame: nat, closes: bool)
      requires StoreOk() && MachineOk() && BaseOk() && ShownOk() && Known() && armed && !failed
      requires controller.View().StartsFrame() && frame == controller.View().NextFrame() && frame < |inputs|
      requires sessionFrame == Some(frame)
      modifies this`shown, this`confirmedLinear, this`done, controller
      ensures Valid()
      ensures controller.View() == React(old(controller.View()), FrameDone(frame)).next
      ensures controller.position == Some(frame)
      ensures var orders := React(old(controller.View()), FrameDone(frame)).commands;
              && shown == old(shown) + AllPictures(orders, sessionFrame, view, controller.phase)
              && done == (old(done) || SomeEnds(orders, closes))
              && confirmedLinear == (old(confirmedLinear) || Confirms(orders))
      ensures !closes && !old(done) && done ==> controller.View().Over()
    {
      StepKeepsPlace(controller.View(), FrameDone(frame));
      EndsMeansOver(controller.View(), FrameDone(frame));
      var commands := controller.FrameCompleted(frame);
      Apply(commands, closes);
    }

    /** One turn of the loop in playback: produce the next frame, keep its checkpoint, tell the
        controller. Only this turn captures checkpoints. */
    method Turn(throws: bool, exported: bool, size: nat, closes: bool)
      requires Valid() && LedgerOk() && !failed && !done && controller.View().StartsFrame()
      modifies this, controller, store, store.ring
      ensures Valid() && LedgerOk()
      ensures controller.View() ==
              if failed then old(controller.View())
              else React(old(controller.View()), FrameDone(old(controller.View().NextFrame()))).next
      ensures !failed ==> stepped <= old(stepped) && (done && !closes ==> controller.View().Over())
      ensures !failed ==>
                var frame := old(controller.View().NextFrame());
                var orders := React(old(controller.View()), FrameDone(frame)).commands;
                && sessionFrame == Some(frame) && view == Some(After(frame + 1))
                && framesCompleted == Max(old(framesCompleted), frame + 1)
                && shown == old(shown) + [(frame, After(frame + 1))]
                            + AllPictures(orders, Some(frame), Some(After(frame + 1)), controller.phase)
                && done == SomeEnds(orders, closes)
                && confirmedLinear == (old(confirmedLinear) || Confirms(orders))
                && (exported && Captures(frame, old(store.ring.entries), size) ==> frame in store.checkpoints)
      ensures failed ==> done == old(done) && confirmedLinear == old(confirmedLinear)
      ensures !failed && !OnGrid(old(controller.View().NextFrame()), store.ring.interval) ==>
                store.ring.entries == old(store.ring.entries)
      ensures loopFailed == old(loopFailed) || throws
      ensures failed <==> throws || (old(loopFailed) && old(controller.View().NextFrame()) == old(framesCompleted))
                          || (old(controller.position).None? && old(sessionFrame).Some?)
      ensures asked <= old(asked) + size && (refused ==> old(refused) || !exported)
    {
      var frame := if controller.position.Some? then controller.position.value + 1 else 0;
      var ok := PlayFrame(frame, throws, exported, size);
      FinishTurn(frame, ok, closes);
    }

    /** A frame that could not be produced fails the session; any other is complete. */
    method FinishTurn(frame: nat, ok: bool, closes: bool)
      requires StoreOk() && MachineOk() && BaseOk() && ShownOk() && armed && !failed && !done
      requires controller.View().StartsFrame() && frame == controller.View().NextFrame() && frame < |inputs|
      requires ok ==> Known() && sessionFrame == Some(frame)
      modifies this`shown, this`confirmedLinear, this`done, this`failed, controller
      ensures Valid() && failed == !ok
      ensures controller.View() ==
              if failed then old(controller.View()) else React(old(controller.View()), FrameDone(frame)).next
      ensures !failed && !closes && done ==> controller.View().Over()
      ensures var orders := React(old(controller.View()), FrameDone(frame)).commands;
              && (ok ==> shown == old(shown) + AllPictures(orders, sessionFrame, view, controller.phase)
                         && done == SomeEnds(orders, closes)
                         && confirmedLinear == (old(confirmedLinear) || Confirms(orders)))
              && (!ok ==> shown == old(shown) && done == old(done) && confirmedLinear == old(confirmedLinear))
    {
      if ok { Complete(frame, closes); } else { failed := true; }
    }

    /** Produces the frame after the session's own, shows it and keeps its checkpoint. */
    method PlayFrame(frame: nat, throws: bool, exported: bool, size: nat) returns (ok: bool)
      requires StoreOk() && BaseOk() && ShownOk() && Known() && LedgerOk() && armed && frame < |inputs|
      requires frame <= framesCompleted
      requires frame > 0 ==> sessionFrame == Some(frame - 1)
      requires frame == 0 ==> sessionFrame == Some(0) || (sessionFrame == None && engine == initial)
      modifies this`engine, this`engineBase, this`sessionFrame, this`view, this`framesCompleted, this`loopFailed,
               this`shown, this`stepped, this`simulated, this`lost, this`asked, this`refused, store, store.ring
      ensures StoreOk() && BaseOk() && ShownOk() && LedgerOk()
      ensures ok ==> Known() && sessionFrame == Some(frame) && stepped <= old(stepped)
      ensures ok ==>
                && view == Some(After(frame + 1)) && framesCompleted == Max(old(framesCompleted), frame + 1)
                && shown == old(shown) + [(frame, After(frame + 1))]
                && (exported && Captures(frame, old(store.ring.entries), size) ==> frame in store.checkpoints)
      ensures ok <==> !throws && !(old(loopFailed) && frame == old(framesCompleted))
                      && !(frame == 0 && old(sessionFrame).Some?)
      ensures ok ==> OnGrid(frame, store.ring.interval) || store.ring.entries == old(store.ring.entries)
      ensures loopFailed == old(loopFailed) || throws
      ensures framesCompleted >= old(framesCompleted)
      ensures asked <= old(asked) + size && (refused ==> old(refused) || !exported)
    {
      ok := ProduceNext(frame, throws);
      if ok { ShowAndKeep(frame, exported, size); }
    }

    method ShowAndKeep(frame: nat, exported: bool, size: nat)
      requires StoreOk() && ShownOk() && Known() && LedgerOk() && armed && sessionFrame == Some(frame)
      modifies this`shown, this`stepped, this`lost, this`asked, this`refused, store, store.ring
      ensures StoreOk() && ShownOk() && LedgerOk()
      ensures shown == old(shown) + if view.Some? then [(frame, view.value)] else []
      ensures exported && Captures(frame, old(store.ring.entries), size) ==> frame in store.checkpoints
      ensures stepped == old(stepped) - if frame + 1 == framesCompleted then {frame} else {}
      ensures asked <= old(asked) + size && (refused ==> old(refused) || !exported)
      ensures OnGrid(frame, store.ring.interval) || store.ring.entries == old(store.ring.entries)
    {
      Show(frame);
      KeepCheckpoint(frame, exported, size);
    }

    method ProduceNext(frame: nat, throws: bool) returns (ok: bool)
      requires BaseOk() && Known() && GridOk() && armed && frame < |inputs| && frame <= framesCompleted
      requires frame > 0 ==> sessionFrame == Some(frame - 1)
      requires frame == 0 ==> sessionFrame == Some(0) || (sessionFrame == None && engine == initial)
      modifies this`engine, this`engineBase, this`sessionFrame, this`view, this`framesCompleted, this`loopFailed,
               this`stepped, this`simulated
      ensures BaseOk() && GridOk()
      ensures ok ==> Known() && sessionFrame == Some(frame) && view == Some(After(frame + 1))
      ensures !ok && !(frame == 0 && old(sessionFrame).Some?) ==> Known()
      ensures simulated == old(simulated) + if ok then 1 else 0
      ensures ok ==> stepped - (if frame + 1 == framesCompleted then {frame} else {}) <= old(stepped)
      ensures frame < old(framesCompleted) ==> stepped == old(stepped) && framesCompleted == old(framesCompleted)
      ensures ok ==> frame < framesCompleted && framesCompleted == Max(old(framesCompleted), frame + 1)
      ensures ok <==> !throws && !(old(loopFailed) && frame == old(framesCompleted))
                      && !(frame == 0 && old(sessionFrame).Some?)
      ensures loopFailed == old(loopFailed) || throws
      ensures old(framesCompleted) <= framesCompleted <= |inputs|
    {
      ok := Produce(frame, throws);
    }

    /** The slot of the next take came. */
    method EndTake()
      requires Valid() && !failed && !done
      modifies this`shown, this`confirmedLinear, this`done, controller
      ensures Valid()
      ensures controller.View() == React(old(controller.View()), TakeSlot).next
      ensures done ==> controller.View().Over()
      ensures confirmedLinear == old(confirmedLinear)
      ensures var orders := React(old(controller.View()), TakeSlot).commands;
              && shown == old(shown) + AllPictures(orders, sessionFrame, view, controller.phase)
              && done == SomeEnds(orders, false)
    {
      StepKeepsPlace(controller.View(), TakeSlot);
      EndsMeansOver(controller.View(), TakeSlot);
      var commands := controller.TakeSlotReached();
      Apply(commands, false);
    }

    method PressKey(action: KeyAction)
      requires Valid() && !failed && !done
      modifies this`shown, this`confirmedLinear, this`done, controller
      ensures Valid()
      ensures controller.View() == React(old(controller.View()), KeyPressed(action, BetweenFrames)).next
      ensures done ==> controller.View().Over()
      ensures confirmedLinear == old(confirmedLinear)
      ensures var orders := React(old(controller.View()), KeyPressed(action, BetweenFrames)).commands;
              && shown == old(shown) + AllPictures(orders, sessionFrame, view, controller.phase)
              && done == SomeEnds(orders, false)
    {
      StepKeepsPlace(controller.View(), KeyPressed(action, BetweenFrames));
      EndsMeansOver(controller.View(), KeyPressed(action, BetweenFrames));
      var commands := controller.Key(action, BetweenFrames);
      Apply(commands, false);
    }

    method LosePresentation(cause: string)
      requires Valid() && !failed && !done
      modifies this`shown, this`confirmedLinear, this`done, controller
      ensures Valid()
      ensures controller.View() == React(old(controller.View()), PresentationLost(cause)).next
      ensures done ==> controller.View().Over()
      ensures confirmedLinear == old(confirmedLinear)
      ensures var orders := React(old(controller.View()), PresentationLost(cause)).commands;
              && shown == old(shown) + AllPictures(orders, sessionFrame, view, controller.phase)
              && done == SomeEnds(orders, false)
    {
      StepKeepsPlace(controller.View(), PresentationLost(cause));
      EndsMeansOver(controller.View(), PresentationLost(cause));
      var commands := controller.PresentationInterrupted(cause);
      Apply(commands, false);
    }

    method RegainPresentation()
      requires Valid() && !failed && !done
      modifies this`shown, this`confirmedLinear, this`done, controller
      ensures Valid()
      ensures controller.View() == React(old(controller.View()), PresentationBack).next
      ensures done ==> controller.View().Over()
      ensures confirmedLinear == old(confirmedLinear)
      ensures var orders := React(old(controller.View()), PresentationBack).commands;
              && shown == old(shown) + AllPictures(orders, sessionFrame, view, controller.phase)
              && done == SomeEnds(orders, false)
    {
      StepKeepsPlace(controller.View(), PresentationBack);
      EndsMeansOver(controller.View(), PresentationBack);
      var commands := controller.PresentationRecovered();
      Apply(commands, false);
    }

    method Cancel()
      requires Valid() && !failed && !done
      modifies this`shown, this`confirmedLinear, this`done, controller
      ensures Valid() && done
      ensures controller.View() == React(old(controller.View()), Cancelled).next
      ensures confirmedLinear == old(confirmedLinear)
      ensures var orders := React(old(controller.View()), Cancelled).commands;
              && shown == old(shown) + AllPictures(orders, sessionFrame, view, controller.phase)
              && done == SomeEnds(orders, false)
    {
      StepKeepsPlace(controller.View(), Cancelled);
      EndsMeansOver(controller.View(), Cancelled);
      var commands := controller.Cancel();
      Apply(commands, false);
    }

    /** Tells the controller how a recovery ended. */
    method FinishRecovery(outcome: RecoveryOutcome)
      requires StoreOk() && MachineOk() && BaseOk() && ShownOk() && Known()
      requires !failed && !done && controller.phase == Recovering
      requires armed || outcome.FailedUnrecoverable?
      requires outcome.Presented? ==> sessionFrame == controller.target && controller.target.Or(0) < framesCompleted
      requires outcome.FailedRestored? ==> sessionFrame == Some(controller.position.Or(0))
      modifies this`shown, this`confirmedLinear, this`done, controller
      ensures Valid()
      ensures controller.View() == React(old(controller.View()), RecoveryDone(outcome)).next
      ensures done ==> controller.View().Over()
      ensures confirmedLinear == old(confirmedLinear)
      ensures var orders := React(old(controller.View()), RecoveryDone(outcome)).commands;
              && shown == old(shown) + AllPictures(orders, sessionFrame, view, controller.phase)
              && done == SomeEnds(orders, false)
      ensures outcome.Presented? && view.Some? ==>
                shown != [] && shown[|shown| - 1] == (old(controller.target.Or(0)), view.value)
    {
      StepKeepsPlace(controller.View(), RecoveryDone(outcome));
      EndsMeansOver(controller.View(), RecoveryDone(outcome));
      if outcome.Presented? && view.Some? { PresentedShows(controller.View(), view.value); }
      var commands := controller.RecoveryFinished(outcome);
      Apply(commands, false);
    }

    /** One turn of the loop while recovering. No checkpoint is ever captured here. */
    method Navigate(rearmed: Option<Engine<S>>, first: Weather<S>, second: Weather<S>)
      returns (outcome: RecoveryOutcome)
      requires Valid() && GridOk() && !failed && !done && controller.phase == Recovering
      modifies this`engine, this`armed, this`engineBase, this`sessionFrame, this`view, this`framesCompleted,
               this`loopFailed, this`postEndRuns, this`shown, this`stepped, this`simulated,
               this`confirmedLinear, this`done, controller
      ensures Valid() && GridOk()
      ensures controller.View() == React(old(controller.View()), RecoveryDone(outcome)).next
      ensures !(old(Rearms()) && rearmed.None?) && !old(loopFailed) && first.throws == {} && second.throws == {} ==>
                outcome == old(Ending(first, second))
      ensures !old(loopFailed) && rearmed.Some? && first.Clear() ==> outcome.Presented? && !loopFailed
      ensures outcome.Presented? ==> simulated == old(simulated) + old(CostOf(controller.target.Or(0)))
      ensures outcome.FailedRestored? ==> sessionFrame == Some(old(controller.position.Or(0)))
      ensures done ==> controller.View().Over()
      ensures confirmedLinear == old(confirmedLinear)
      ensures old(Backward()) ==> stepped == old(stepped)
      ensures loopFailed == old(loopFailed) || first.throws != {} || second.throws != {}
      ensures done == SomeEnds(React(old(controller.View()), RecoveryDone(outcome)).commands, false)
      ensures outcome.Presented? ==>
                var target := old(controller.target.Or(0));
                shown != [] && shown[|shown| - 1] == (target, After(target + 1))
    {
      if sessionFrame.Some? { Show(sessionFrame.value); }
      outcome := RecoverAndTell(rearmed, first, second);
    }

    method RecoverAndTell(rearmed: Option<Engine<S>>, first: Weather<S>, second: Weather<S>)
      returns (outcome: RecoveryOutcome)
      requires Valid() && GridOk() && !failed && !done && controller.phase == Recovering
      modifies this`engine, this`armed, this`engineBase, this`sessionFrame, this`view, this`framesCompleted,
               this`loopFailed, this`postEndRuns, this`shown, this`stepped, this`simulated,
               this`confirmedLinear, this`done, controller
      ensures Valid() && GridOk()
      ensures controller.View() == React(old(controller.View()), RecoveryDone(outcome)).next
      ensures !(old(Rearms()) && rearmed.None?) && !old(loopFailed) && first.throws == {} && second.throws == {} ==>
                outcome == old(Ending(first, second))
      ensures !old(loopFailed) && rearmed.Some? && first.Clear() ==> outcome.Presented? && !loopFailed
      ensures outcome.Presented? ==> simulated == old(simulated) + old(CostOf(controller.target.Or(0)))
      ensures outcome.FailedRestored? ==> sessionFrame == Some(old(controller.position.Or(0)))
      ensures done ==> controller.View().Over()
      ensures confirmedLinear == old(confirmedLinear)
      ensures old(Backward()) ==> stepped == old(stepped)
      ensures loopFailed == old(loopFailed) || first.throws != {} || second.throws != {}
      ensures done == SomeEnds(React(old(controller.View()), RecoveryDone(outcome)).commands, false)
      ensures outcome.Presented? ==>
                var target := old(controller.target.Or(0));
                shown != [] && shown[|shown| - 1] == (target, After(target + 1))
    {
      outcome := RecoverTarget(rearmed, first, second);
      FinishRecovery(outcome);
    }

    /** Recovers the controller's target. */
    method RecoverTarget(rearmed: Option<Engine<S>>, first: Weather<S>, second: Weather<S>)
      returns (outcome: RecoveryOutcome)
      requires Valid() && GridOk() && !failed && !done && controller.phase == Recovering
      modifies this`engine, this`armed, this`engineBase, this`sessionFrame, this`view, this`framesCompleted,
               this`loopFailed, this`postEndRuns, this`shown, this`stepped, this`simulated
      ensures StoreOk() && MachineOk() && BaseOk() && ShownOk() && Known() && GridOk()
      ensures armed || outcome.FailedUnrecoverable?
      ensures outcome.Presented? ==>
                && sessionFrame == controller.target && controller.target.Or(0) < framesCompleted
                && simulated == old(simulated) + old(CostOf(controller.target.Or(0)))
      ensures outcome.FailedRestored? ==> sessionFrame == Some(controller.position.Or(0))
      ensures !(old(Rearms()) && rearmed.None?) && !old(loopFailed) && first.throws == {} && second.throws == {} ==>
                outcome == old(Ending(first, second))
      ensures !old(loopFailed) && rearmed.Some? && first.Clear() ==> outcome.Presented? && !loopFailed
      ensures old(Backward()) ==> stepped == old(stepped)
      ensures loopFailed == old(loopFailed) || first.throws != {} || second.throws != {}
      ensures outcome.Presented? ==> view == Some(After(controller.target.Or(0) + 1))
    {
      outcome := Recover(controller.target.value, rearmed, first, second);
    }

    /** The Engine steps it takes to reach the goal: one step on, or all the way from the nearest
        checkpoint. */
    ghost function CostOf(goal: nat): int
      requires StoreOk()
      reads this`framesCompleted, this`sessionFrame, this`confirmedLinear, this`postEndRuns, store, store.ring
    {
      if StepsTo(Start(), goal) then 1 else goal - From(goal)
    }

    /** How the recovery at hand ends when no step throws and the session can be used. */
    ghost function Ending(first: Weather<S>, second: Weather<S>): RecoveryOutcome
      requires StoreOk()
      reads this`framesCompleted, this`sessionFrame, this`confirmedLinear, this`postEndRuns,
            controller, store, store.ring
    {
      Outcome(Start(), controller.target.Or(0), controller.position.Or(0), first, second)
    }

    /** A recovery under way goes back. */
    ghost predicate Backward()
      reads controller
    {
      GoesBack(controller.View())
    }

    ghost predicate Live()
      reads this`done, this`failed
    {
      !done && !failed
    }

    /** A turn of playback fails: the step throws, the loop failed at this frame before, or an
        interruption before frame 0 left the session at frame 0. */
    ghost predicate TurnFails(throws: bool)
      reads this`loopFailed, this`framesCompleted, this`sessionFrame, controller
    {
      || throws || (loopFailed && controller.View().NextFrame() == framesCompleted)
      || (controller.position.None? && sessionFrame.Some?)
    }

    /** Answers one stimulus with the controller's event it stands for, if any. */
    method Handle(s: Stimulus<S>) returns (ghost events: seq<Event>)
      requires Valid() && LedgerOk()
      modifies this, controller, store, store.ring
      ensures Valid() && LedgerOk()
      ensures !old(Live()) ==> events == [] && shown == old(shown)
      ensures old(Live()) ==> Stands(s, old(controller.View()), failed, events)
      ensures old(Live()) ==>
                (failed <==> s.FrameTurn?
                             && old(controller.View().StartsFrame() && TurnFails(s.FrameTurn? && s.throws)))
      ensures OneStep(old(controller.View()), controller.View(), events)
      ensures confirmedLinear == (old(confirmedLinear) || Confirms(OrdersOf(old(controller.View()), events)))
      ensures done == (old(done) || SomeEnds(OrdersOf(old(controller.View()), events), Closes(s)))
      ensures Throws(s) || loopFailed == old(loopFailed)
      ensures events != [] && events[0].FrameDone? ==> PlayedOn(s, events[0].frame, old(shown), old(framesCompleted),
                                                                old(controller.View()), old(store.ring.entries))
      ensures events != [] && events[0] == RecoveryDone(Presented) ==> EndsWith(old(controller.target.Or(0)))
      ensures events != [] && s.Recovery? && old(Calm(s)) ==> events[0] == RecoveryDone(old(Ending(s.first, s.second)))
      ensures events != [] && !s.FrameTurn? && !s.Recovery? ==>
                shown == old(shown) + AllPictures(OrdersOf(old(controller.View()), events), sessionFrame, view,
                                                  controller.phase)
      ensures !s.FrameTurn? && !s.Recovery? ==>
                unchanged(this`engine, this`sessionFrame, this`view, this`framesCompleted)
      ensures asked <= old(asked) + SizeIn(s) && (refused ==> old(refused) || !Exports(s))
      ensures s != KeyPress(Right) && old(Backward()) ==> Backward() && (!failed ==> stepped <= old(stepped))
      ensures failed || !old(failed)
    {
      events := [];
      if !done && !failed { events := HandleLive(s); }
    }

    method HandleLive(s: Stimulus<S>) returns (ghost events: seq<Event>)
      requires Valid() && LedgerOk() && Live()
      modifies this, controller, store, store.ring
      ensures Valid() && LedgerOk()
      ensures Stands(s, old(controller.View()), failed, events)
      ensures failed <==> s.FrameTurn? && old(controller.View().StartsFrame() && TurnFails(s.FrameTurn? && s.throws))
      ensures OneStep(old(controller.View()), controller.View(), events)
      ensures confirmedLinear == (old(confirmedLinear) || Confirms(OrdersOf(old(controller.View()), events)))
      ensures done == SomeEnds(OrdersOf(old(controller.View()), events), Closes(s))
      ensures Throws(s) || loopFailed == old(loopFailed)
      ensures events != [] && events[0].FrameDone? ==> PlayedOn(s, events[0].frame, old(shown), old(framesCompleted),
                                                                old(controller.View()), old(store.ring.entries))
      ensures events != [] && events[0] == RecoveryDone(Presented) ==> EndsWith(old(controller.target.Or(0)))
      ensures events != [] && s.Recovery? && old(Calm(s)) ==> events[0] == RecoveryDone(old(Ending(s.first, s.second)))
      ensures events != [] && !s.FrameTurn? && !s.Recovery? ==>
                shown == old(shown) + AllPictures(OrdersOf(old(controller.View()), events), sessionFrame, view,
                                                  controller.phase)
      ensures !s.FrameTurn? && !s.Recovery? ==>
                unchanged(this`engine, this`sessionFrame, this`view, this`framesCompleted)
      ensures asked <= old(asked) + SizeIn(s) && (refused ==> old(refused) || !Exports(s))
      ensures s != KeyPress(Right) && old(Backward()) ==> Backward() && (!failed ==> stepped <= old(stepped))
    {
      if s.FrameTurn? {
        events := HandleTurn(s);
      } else {
        events := HandleOther(s);
      }
    }

    method HandleOther(s: Stimulus<S>) returns (ghost events: seq<Event>)
      requires Valid() && GridOk() && Live() && !s.FrameTurn?
      modifies this`engine, this`armed, this`engineBase, this`sessionFrame, this`view, this`framesCompleted,
               this`loopFailed, this`postEndRuns, this`shown, this`stepped, this`simulated,
               this`confirmedLinear, this`done, controller
      ensures Valid() && GridOk()
      ensures Stands(s, old(controller.View()), failed, events)
      ensures OneStep(old(controller.View()), controller.View(), events)
      ensures confirmedLinear == (old(confirmedLinear) || Confirms(OrdersOf(old(controller.View()), events)))
      ensures done == SomeEnds(OrdersOf(old(controller.View()), events), false)
      ensures Throws(s) || loopFailed == old(loopFailed)
      ensures events != [] && events[0] == RecoveryDone(Presented) ==> EndsWith(old(controller.target.Or(0)))
      ensures events != [] && s.Recovery? && old(Calm(s)) ==> events[0] == RecoveryDone(old(Ending(s.first, s.second)))
      ensures events != [] && !s.Recovery? ==>
                shown == old(shown) + AllPictures(OrdersOf(old(controller.View()), events), sessionFrame, view,
                                                  controller.phase)
      ensures !s.Recovery? ==> unchanged(this`engine, this`sessionFrame, this`view, this`framesCompleted)
      ensures s != KeyPress(Right) && old(Backward()) ==> Backward() && stepped == old(stepped)
    {
      if s.Recovery? {
        events := HandleRecovery(s);
      } else {
        events := HandleEvent(s);
      }
    }

    /** What a turn of playback that completes a frame leaves: its picture shown, then those its
        orders present, and its checkpoint kept. */
    ghost predicate PlayedOn(s: Stimulus<S>, frame: nat, shownBefore: seq<(nat, Engine<S>)>, completedBefore: nat,
                             c: Controller, entries: seq<Entry>)
      reads this, controller, store
    {
      && s.FrameTurn? && frame < |inputs| && sessionFrame == Some(frame) && view == Some(After(frame + 1))
      && framesCompleted == Max(completedBefore, frame + 1)
      && shown == shownBefore + [(frame, After(frame + 1))]
                  + AllPictures(React(c, FrameDone(frame)).commands, Some(frame), Some(After(frame + 1)),
                                controller.phase)
      && (s.exported && Captures(frame, entries, s.size) ==> frame in store.checkpoints)
    }

    /** The picture on the screen is the one the plain replay shows for the frame. */
    ghost predicate EndsWith(frame: nat)
      reads this`shown
    {
      frame < |inputs| && shown != [] && shown[|shown| - 1] == (frame, After(frame + 1))
    }

    /** Nothing throws and the session can be used. */
    ghost predicate Calm(s: Stimulus<S>)
      reads this`confirmedLinear, this`postEndRuns, this`loopFailed
    {
      s.Recovery? && !(Rearms() && s.rearmed.None?) && !loopFailed && s.first.throws == {} && s.second.throws == {}
    }

    method HandleRecovery(s: Stimulus<S>) returns (ghost events: seq<Event>)
      requires Valid() && GridOk() && !failed && !done && s.Recovery?
      modifies this`engine, this`armed, this`engineBase, this`sessionFrame, this`view, this`framesCompleted,
               this`loopFailed, this`postEndRuns, this`shown, this`stepped, this`simulated,
               this`confirmedLinear, this`done, controller
      ensures Valid() && GridOk()
      ensures Stands(s, old(controller.View()), failed, events)
      ensures OneStep(old(controller.View()), controller.View(), events)
      ensures confirmedLinear == (old(confirmedLinear) || Confirms(OrdersOf(old(controller.View()), events)))
      ensures done == SomeEnds(OrdersOf(old(controller.View()), events), false)
      ensures Throws(s) || loopFailed == old(loopFailed)
      ensures events != [] && events[0] == RecoveryDone(Presented) ==> EndsWith(old(controller.target.Or(0)))
      ensures events != [] && old(Calm(s)) ==> events[0] == RecoveryDone(old(Ending(s.first, s.second)))
      ensures old(Backward()) ==> Backward() && stepped == old(stepped)
    {
      events := [];
      if controller.phase == Recovering {
        var outcome := Navigate(s.rearmed, s.first, s.second);
        events := [RecoveryDone(outcome)];
        EndsMeansOver(old(controller.View()), RecoveryDone(outcome));
      }
    }

    method HandleEvent(s: Stimulus<S>) returns (ghost events: seq<Event>)
      requires Valid() && !failed && !done && !s.FrameTurn? && !s.Recovery?
      modifies this`shown, this`confirmedLinear, this`done, controller
      ensures Valid()
      ensures Stands(s, old(controller.View()), failed, events)
      ensures OneStep(old(controller.View()), controller.View(), events)
      ensures confirmedLinear == (old(confirmedLinear) || Confirms(OrdersOf(old(controller.View()), events)))
      ensures done == SomeEnds(OrdersOf(old(controller.View()), events), false)
      ensures events != [] ==>
                shown == old(shown) + AllPictures(OrdersOf(old(controller.View()), events), sessionFrame, view,
                                                  controller.phase)
      ensures s != KeyPress(Right) && old(Backward()) ==> Backward()
    {
      events := [];
      match s {
        case KeyPress(action) =>
          events := [KeyPressed(action, BetweenFrames)];
          PressKey(action);
        case Loss(cause) =>
          events := [PresentationLost(cause)];
          LosePresentation(cause);
        case Back =>
          events := [PresentationBack];
          RegainPresentation();
        case Redraw => Show(sessionFrame.Or(0));
        case Quit =>
          events := [Cancelled];
          Cancel();
      }
      if events != [] {
        KeepsGoingBack(old(controller.View()), events[0]);
        EndsMeansOver(old(controller.View()), events[0]);
      }
    }

    method HandleTurn(s: Stimulus<S>) returns (ghost events: seq<Event>)
      requires Valid() && LedgerOk() && !failed && !done && s.FrameTurn?
      modifies this, controller, store, store.ring
      ensures Valid() && LedgerOk()
      ensures Stands(s, old(controller.View()), failed, events)
      ensures failed <==> old(controller.View().StartsFrame()) && old(TurnFails(s.throws))
      ensures OneStep(old(controller.View()), controller.View(), events)
      ensures confirmedLinear == (old(confirmedLinear) || Confirms(OrdersOf(old(controller.View()), events)))
      ensures done == SomeEnds(OrdersOf(old(controller.View()), events), s.closes)
      ensures s.throws || loopFailed == old(loopFailed)
      ensures events != [] && events[0].FrameDone? ==> PlayedOn(s, events[0].frame, old(shown), old(framesCompleted),
                                                                old(controller.View()), old(store.ring.entries))
      ensures asked <= old(asked) + s.size && (refused ==> old(refused) || !s.exported)
      ensures old(Backward()) ==> Backward() && (!failed ==> stepped <= old(stepped))
    {
      events := [];
      if controller.phase == Playing && controller.takeEndPending {
        events := HandleSlot(s.closes);
      } else if controller.phase == Playing || controller.phase == Pausing {
        events := HandlePlay(s);
      }
    }

    method HandleSlot(closes: bool) returns (ghost events: seq<Event>)
      requires Valid() && !failed && !done && controller.phase == Playing && controller.takeEndPending
      modifies this`shown, this`confirmedLinear, this`done, controller
      ensures Valid() && events == [TakeSlot]
      ensures OneStep(old(controller.View()), controller.View(), events)
      ensures confirmedLinear == (old(confirmedLinear) || Confirms(OrdersOf(old(controller.View()), events)))
      ensures done == SomeEnds(OrdersOf(old(controller.View()), events), closes)
      ensures old(Backward()) ==> Backward()
    {
      events := [TakeSlot];
      KeepsGoingBack(controller.View(), TakeSlot);
      EndTake();
      SlotOrders(old(controller.View()), closes);
    }

    method HandlePlay(s: Stimulus<S>) returns (ghost events: seq<Event>)
      requires Valid() && LedgerOk() && !failed && !done && s.FrameTurn? && controller.View().StartsFrame()
      modifies this, controller, store, store.ring
      ensures Valid() && LedgerOk()
      ensures events == if failed then [] else [FrameDone(old(controller.View().NextFrame()))]
      ensures failed <==> old(TurnFails(s.throws))
      ensures OneStep(old(controller.View()), controller.View(), events)
      ensures confirmedLinear == (old(confirmedLinear) || Confirms(OrdersOf(old(controller.View()), events)))
      ensures done == SomeEnds(OrdersOf(old(controller.View()), events), s.closes)
      ensures s.throws || loopFailed == old(loopFailed)
      ensures !failed ==> PlayedOn(s, old(controller.View().NextFrame()), old(shown), old(framesCompleted),
                                   old(controller.View()), old(store.ring.entries))
      ensures asked <= old(asked) + s.size && (refused ==> old(refused) || !s.exported)
      ensures old(Backward()) ==> Backward() && (!failed ==> stepped <= old(stepped))
    {
      Turn(s.throws, s.exported, s.size, s.closes);
      events := if failed then [] else [FrameDone(old(controller.View().NextFrame()))];
    }

    /** Over every run: each picture presented for frame k is the one the plain replay shows for
        k, while the take goes on the session stands where the controller says, and the controller
        is where the events its script stands for lead, one step for each stimulus. */
    method Run(script: seq<Stimulus<S>>) returns (ghost steps: seq<seq<Event>>)
      requires Valid() && LedgerOk()
      modifies this, controller, store, store.ring
      ensures Valid() && LedgerOk()
      ensures forall i :: 0 <= i < |shown| ==> shown[i].0 < |inputs| && shown[i].1 == After(shown[i].0 + 1)
      ensures !failed && armed && sessionFrame.Some? ==>
                sessionFrame.value < |inputs| && engine == After(sessionFrame.value + 1)
      ensures !failed && !done && !controller.View().Over() && controller.position.Some? ==>
                sessionFrame == controller.position
      ensures forall c :: c in store.checkpoints ==> 0 <= c + 1 <= |inputs| && store.checkpoints[c] == After(c + 1)
      ensures |steps| == |script|
      ensures controller.View() == InspectionState.Run(old(controller.View()), Flatten(steps)).next
      ensures Disciplined(old(controller.View()), Flatten(steps))
      ensures Live() ==> AllStand(script, old(controller.View()), steps)
      ensures confirmedLinear ==
              (old(confirmedLinear) || Confirms(InspectionState.Run(old(controller.View()), Flatten(steps)).commands))
      ensures asked <= old(asked) + SizesIn(script)
      ensures refused ==> old(refused) || exists i :: 0 <= i < |script| && !Exports(script[i])
      ensures old(Backward()) && old(stepped) == {} && KeyPress(Right) !in script && !failed ==> stepped == {}
    {
      steps := [];
      assert Flatten(steps) == [];
      for i := 0 to |script|
        invariant Valid() && LedgerOk()
        invariant |steps| == i && Tracks(old(controller.View()), steps, old(confirmedLinear))
        invariant Live() ==> AllStand(script, old(controller.View()), steps)
        invariant asked <= old(asked) + SizesIn(script[..i])
        invariant refused ==> old(refused) || exists k :: 0 <= k < i && !Exports(script[k])
        invariant old(Backward()) && KeyPress(Right) !in script ==> Backward()
        invariant old(Backward()) && old(stepped) == {} && KeyPress(Right) !in script && !failed ==> stepped == {}
      {
        assert script[i] in script;
        assert script[..i + 1][..i] == script[..i];
        steps := HandleNext(script, i, old(controller.View()), steps, old(confirmedLinear));
      }
      assert script[..|script|] == script;
    }

    method HandleNext(script: seq<Stimulus<S>>, i: nat, ghost from: Controller, ghost steps: seq<seq<Event>>,
                      ghost confirmed: bool)
      returns (ghost more: seq<seq<Event>>)
      requires Valid() && LedgerOk() && |steps| == i < |script| && Tracks(from, steps, confirmed)
      requires Live() ==> AllStand(script, from, steps)
      modifies this, controller, store, store.ring
      ensures Valid() && LedgerOk() && |more| == |steps| + 1 && Tracks(from, more, confirmed)
      ensures Live() ==> AllStand(script, from, more)
      ensures asked <= old(asked) + SizeIn(script[i]) && (refused ==> old(refused) || !Exports(script[i]))
      ensures script[i] != KeyPress(Right) && old(Backward()) ==> Backward() && (!failed ==> stepped <= old(stepped))
      ensures failed || !old(failed)
    {
      var events := Handle(script[i]);
      OneMoreStep(from, steps, events);
      more := steps + [events];
      if Live() { OneMoreStands(script, from, steps, events); }
    }

    /** The controller and what was confirmed are those of the run of these events. */
    ghost predicate Tracks(from: Controller, steps: seq<seq<Event>>, confirmed: bool)
      reads this`confirmedLinear, controller
    {
      && Disciplined(from, Flatten(steps))
      && controller.View() == InspectionState.Run(from, Flatten(steps)).next
      && confirmedLinear == (confirmed || Confirms(InspectionState.Run(from, Flatten(steps)).commands))
    }

    /** In every reachable state: a restore to any completed frame re-simulates at most K frames
        if and only if the last grid frame below it was last completed by playback and its
        checkpoint neither refused nor evicted. */
    lemma StepBackCost(target: nat)
      requires StoreOk() && GridOk() && target <= framesCompleted && target < TWO_32
      ensures target - From(target) <= store.ring.interval <==>
              var g := LastGrid(target, store.ring.interval); g == INITIAL_FRAME || (g !in stepped && g !in lost)
    {
      ReplayCost(store.ring.entries, store.ring.interval, target);
      LastGridIsNear(target, store.ring.interval);
      LastGridIsOnGrid(target, store.ring.interval);
      assert store.ring.entries[0].frame in Frames(store.ring.entries);
    }
  }
}
