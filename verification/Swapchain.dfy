/**
 The swapchain and its move-only frame token (src/vulkan_backend/vk_swapchain.cpp), with every
 Vulkan answer left open. `Gpu.live` is the set of handles created and not yet destroyed;
 destroying one that is not live is not allowed, so each is destroyed at most once.
 */
module Swapchain {
  import opened Options

  type Handle = nat
  const NULL: Handle := 0
  const MAX_FRAMES: nat := 2

  class Gpu {
    var next: Handle
    ghost var live: set<Handle>

    ghost predicate Valid()
      reads this
    {
      next > 0 && forall h :: h in live ==> 0 < h < next
    }

    constructor ()
      ensures Valid() && live == {}
    {
      next, live := 1, {};
    }

    /** A create call: a handle never seen before, or nothing. */
    method Create(ok: bool) returns (h: Handle)
      requires Valid()
      modifies this
      ensures Valid() && next >= old(next)
      ensures ok ==> h != NULL && old(next) <= h < next && live == old(live) + {h}
      ensures !ok ==> h == NULL && live == old(live)
    {
      if !ok { return NULL; }
      h := next;
      next := next + 1;
      live := live + {h};
    }

    method Destroy(h: Handle)
      requires Valid() && h in live
      modifies this`live
      ensures Valid() && live == old(live) - {h}
    {
      live := live - {h};
    }
  }

  datatype SwapFrame = SwapFrame(pool: Handle, cmd: Handle, fence: Handle, imageReady: Handle, renderDone: Handle)

  const NO_FRAME := SwapFrame(NULL, NULL, NULL, NULL, NULL)

  datatype Extent = Extent(width: nat, height: nat)

  datatype OwnedState = OwnedState(
    swapchain: Handle, extent: Extent, images: seq<nat>, views: seq<Handle>, frames: seq<SwapFrame>)

  const EMPTY := OwnedState(NULL, Extent(0, 0), [], [], [NO_FRAME, NO_FRAME])

  /** The handles of a frame in the order they are destroyed; its command buffer goes with its
      pool. */
  function FrameOrder(f: SwapFrame): seq<Handle> { [f.renderDone, f.imageReady, f.fence, f.pool] }

  /** Every handle the state may own, in the order they are destroyed. */
  function Order(s: OwnedState): seq<Handle>
    requires |s.frames| == MAX_FRAMES
  {
    FrameOrder(s.frames[0]) + FrameOrder(s.frames[1]) + s.views + [s.swapchain]
  }

  ghost function Owned(order: seq<Handle>): set<Handle> {
    set i | 0 <= i < |order| && order[i] != NULL :: order[i]
  }

  predicate Distinct(order: seq<Handle>) {
    forall i, j :: 0 <= i < j < |order| && order[i] != NULL ==> order[i] != order[j]
  }

  predicate Complete(s: OwnedState) {
    && |s.frames| == MAX_FRAMES
    && s.swapchain != NULL && s.images != [] && |s.images| == |s.views|
    && (forall i :: 0 <= i < |s.views| ==> s.views[i] != NULL)
    && (forall i :: 0 <= i < |s.frames| ==> FrameSet(s.frames[i]))
  }

  predicate FrameSet(f: SwapFrame) {
    f.pool != NULL && f.fence != NULL && f.imageReady != NULL && f.renderDone != NULL
  }

  /** The state owns its handles, each once, besides those kept by others. */
  ghost predicate Owns(gpu: Gpu, keep: set<Handle>, order: seq<Handle>)
    reads gpu
  {
    && gpu.Valid() && Distinct(order)
    && keep !! Owned(order)
    && gpu.live == keep + Owned(order)
  }

  lemma OwnedTail(order: seq<Handle>)
    requires order != [] && Distinct(order)
    ensures Distinct(order[1..])
    ensures Owned(order[1..]) == Owned(order) - (if order[0] == NULL then {} else {order[0]})
  {
    var rest := order[1..];
    assert forall i :: 0 <= i < |rest| ==> rest[i] == order[i + 1];
    forall h | h in Owned(order) && h != order[0] ensures h in Owned(rest) {
      var i :| 0 <= i < |order| && order[i] != NULL && order[i] == h;
      assert rest[i - 1] == h;
    }
  }

  /** A fresh handle put in an empty slot. */
  lemma OwnedSlot(order: seq<Handle>, at: nat, h: Handle)
    requires at < |order| && order[at] == NULL && h != NULL && h !in Owned(order) && Distinct(order)
    ensures Distinct(order[at := h])
    ensures Owned(order[at := h]) == Owned(order) + {h}
  {
    var new' := order[at := h];
    forall x | x in Owned(order) + {h} ensures x in Owned(new') {
      if x == h {
        assert new'[at] == h;
      } else {
        var i :| 0 <= i < |order| && order[i] != NULL && order[i] == x;
        assert new'[i] == x;
      }
    }
    forall i, j | 0 <= i < j < |new'| && new'[i] != NULL ensures new'[i] != new'[j] {
      if i == at {
        assert order[j] != NULL ==> order[j] in Owned(order);
      } else if j == at {
        assert order[i] in Owned(order);
      }
    }
  }

  /** Slots added empty own nothing. */
  lemma OwnedPadding(a: seq<Handle>, n: nat, b: seq<Handle>)
    requires Distinct(a + b)
    ensures Distinct(a + seq(n, _ => NULL) + b)
    ensures Owned(a + seq(n, _ => NULL) + b) == Owned(a + b)
  {
    var short, long := a + b, a + seq(n, _ => NULL) + b;
    assert forall i :: 0 <= i < |a| ==> long[i] == short[i];
    assert forall i :: |a| <= i < |a| + n ==> long[i] == NULL;
    assert forall i :: |a| + n <= i < |long| ==> long[i] == short[i - n];
    forall h | h in Owned(short) ensures h in Owned(long) {
      var i :| 0 <= i < |short| && short[i] != NULL && short[i] == h;
      assert long[if i < |a| then i else i + n] == h;
    }
    forall h | h in Owned(long) ensures h in Owned(short) {
      var i :| 0 <= i < |long| && long[i] != NULL && long[i] == h;
      assert short[if i < |a| then i else i - n] == h;
    }
    forall i, j | 0 <= i < j < |long| && long[i] != NULL ensures long[i] != long[j] {
      var k := if i < |a| then i else i - n;
      if j < |a| {
        assert short[k] != short[j];
      } else if j >= |a| + n {
        assert short[k] != short[j - n];
      }
    }
  }

  // ---------------------------------------------------------------------------------------
  // Tearing down.
  // ---------------------------------------------------------------------------------------

  method DestroyIfSet(gpu: Gpu, h: Handle, ghost keep: set<Handle>, ghost order: seq<Handle>)
    requires order != [] && order[0] == h && Owns(gpu, keep, order)
    modifies gpu`live
    ensures Owns(gpu, keep, order[1..])
  {
    OwnedTail(order);
    if h != NULL {
      assert order[0] in Owned(order);
      gpu.Destroy(h);
    }
  }

  method DestroyFrame(gpu: Gpu, f: SwapFrame, ghost keep: set<Handle>, ghost rest: seq<Handle>)
    requires Owns(gpu, keep, FrameOrder(f) + rest)
    modifies gpu`live
    ensures Owns(gpu, keep, rest)
  {
    ghost var order := FrameOrder(f) + rest;
    DestroyIfSet(gpu, f.renderDone, keep, order);
    DestroyIfSet(gpu, f.imageReady, keep, order[1..]);
    assert order[1..][1..] == order[2..];
    DestroyIfSet(gpu, f.fence, keep, order[2..]);
    assert order[2..][1..] == order[3..];
    DestroyIfSet(gpu, f.pool, keep, order[3..]);
    assert order[3..][1..] == rest;
  }

  method DestroyViews(gpu: Gpu, views: seq<Handle>, ghost keep: set<Handle>, ghost rest: seq<Handle>)
    requires Owns(gpu, keep, views + rest)
    modifies gpu`live
    ensures Owns(gpu, keep, rest)
  {
    assert views[0..] + rest == views + rest;
    for i := 0 to |views|
      invariant Owns(gpu, keep, views[i..] + rest)
    {
      assert (views[i..] + rest)[1..] == views[i + 1..] + rest;
      DestroyIfSet(gpu, views[i], keep, views[i..] + rest);
    }
    assert views[|views|..] + rest == rest;
  }

  /** Destroys everything a state owns, complete or not, and nothing else. */
  method DestroyOwned(gpu: Gpu, s: OwnedState, ghost keep: set<Handle>)
    requires |s.frames| == MAX_FRAMES && Owns(gpu, keep, Order(s))
    modifies gpu`live
    ensures gpu.Valid() && gpu.live == keep
  {
    ghost var last := [s.swapchain];
    ghost var second := FrameOrder(s.frames[1]) + (s.views + last);
    assert Order(s) == FrameOrder(s.frames[0]) + second;
    DestroyFrame(gpu, s.frames[0], keep, second);
    DestroyFrame(gpu, s.frames[1], keep, s.views + last);
    DestroyViews(gpu, s.views, keep, last);
    DestroyIfSet(gpu, s.swapchain, keep, last);
    assert Owned(last[1..]) == {};
  }

  // ---------------------------------------------------------------------------------------
  // Building up.
  // ---------------------------------------------------------------------------------------

  /** The answers to the calls of one build; `buffers(f)` is the command buffer the driver hands
      out for frame f. */
  datatype Answers = Answers(
    swapchain: bool, extent: Extent, images: Option<seq<nat>>, views: nat -> bool, sync: (nat, nat) -> bool,
    buffers: nat -> Handle)

  /** The state holds what the driver handed out. */
  ghost predicate FromDriver(s: OwnedState, a: Answers)
    requires |s.frames| == MAX_FRAMES
  {
    && a.images == Some(s.images) && s.extent == a.extent
    && forall f :: 0 <= f < MAX_FRAMES ==> s.frames[f].cmd == a.buffers(f)
  }

  /** Whether every call of a build succeeds. */
  ghost predicate Willing(a: Answers) {
    && a.swapchain && a.images.Some? && a.images.value != []
    && (forall i :: 0 <= i < |a.images.value| ==> a.views(i))
    && (forall f, step :: 0 <= f < MAX_FRAMES && 0 <= step < 5 ==> a.sync(f, step))
  }

  /** Creates a handle into an empty slot. */
  method CreateAt(gpu: Gpu, ok: bool, ghost keep: set<Handle>, ghost order: seq<Handle>, ghost at: nat)
    returns (h: Handle)
    requires at < |order| && order[at] == NULL && Owns(gpu, keep, order)
    modifies gpu
    ensures Owns(gpu, keep, order[at := h])
    ensures h != NULL <==> ok
  {
    h := gpu.Create(ok);
    if ok {
      assert h !in Owned(order) && h !in keep;
      OwnedSlot(order, at, h);
    } else {
      assert order[at := h] == order;
    }
  }

  method CreateSwapchain(gpu: Gpu, answers: Answers, ghost keep: set<Handle>) returns (s: OwnedState, ok: bool)
    requires gpu.Valid() && gpu.live == keep
    modifies gpu
    ensures |s.frames| == MAX_FRAMES && Owns(gpu, keep, Order(s))
    ensures s.views == [] && s.frames == EMPTY.frames
    ensures ok ==> s.swapchain != NULL && s.images != []
    ensures ok <==> answers.swapchain && answers.images.Some? && answers.images.value != []
    ensures ok ==> s.images == answers.images.value && s.extent == answers.extent
  {
    s := EMPTY;
    assert Owned(Order(s)) == {};
    var h := CreateAt(gpu, answers.swapchain, keep, Order(s), 8);
    assert Order(s.(swapchain := h)) == Order(s)[8 := h];
    s := s.(swapchain := h, extent := answers.extent);
    if !answers.swapchain || answers.images.None? { return s, false; }
    s := s.(images := answers.images.value);
    return s, s.images != [];
  }

  lemma ViewSlot(s: OwnedState, i: nat, h: Handle)
    requires |s.frames| == MAX_FRAMES && i < |s.views|
    ensures Order(s)[8 + i] == s.views[i]
    ensures Order(s.(views := s.views[i := h])) == Order(s)[8 + i := h]
  {
  }

  method CreateImageViews(gpu: Gpu, pending: OwnedState, answers: Answers, ghost keep: set<Handle>)
    returns (s: OwnedState, ok: bool)
    requires |pending.frames| == MAX_FRAMES && pending.views == [] && Owns(gpu, keep, Order(pending))
    modifies gpu
    ensures |s.frames| == MAX_FRAMES && Owns(gpu, keep, Order(s))
    ensures s == pending.(views := s.views)
    ensures ok ==> |s.views| == |s.images| && forall i :: 0 <= i < |s.views| ==> s.views[i] != NULL
    ensures ok <==> forall i :: 0 <= i < |pending.images| ==> answers.views(i)
  {
    var blank := seq(|pending.images|, _ => NULL);
    s := pending.(views := blank);
    ghost var frames := FrameOrder(pending.frames[0]) + FrameOrder(pending.frames[1]);
    assert Order(pending) == frames + [pending.swapchain];
    OwnedPadding(frames, |pending.images|, [pending.swapchain]);
    for i := 0 to |s.images|
      invariant s == pending.(views := s.views) && |s.views| == |pending.images|
      invariant Owns(gpu, keep, Order(s))
      invariant forall k :: 0 <= k < i ==> s.views[k] != NULL && answers.views(k)
      invariant forall k :: i <= k < |s.views| ==> s.views[k] == NULL
    {
      ViewSlot(s, i, NULL);
      var h := CreateAt(gpu, answers.views(i), keep, Order(s), 8 + i);
      ViewSlot(s, i, h);
      s := s.(views := s.views[i := h]);
      if !answers.views(i) { return s, false; }
    }
    return s, true;
  }

  function WithFrame(s: OwnedState, f: nat, frame: SwapFrame): OwnedState
    requires f < |s.frames|
  {
    s.(frames := s.frames[f := frame])
  }

  lemma FrameSlots(s: OwnedState, f: nat, frame: SwapFrame)
    requires |s.frames| == MAX_FRAMES && f < MAX_FRAMES
    ensures Order(WithFrame(s, f, frame)) ==
            Order(s)[4 * f := frame.renderDone][4 * f + 1 := frame.imageReady]
                    [4 * f + 2 := frame.fence][4 * f + 3 := frame.pool]
    ensures Order(s)[4 * f..4 * f + 4] == FrameOrder(s.frames[f])
  {
  }

  /** The five calls of one frame, stopping at the first that fails. */
  method CreateFrame(gpu: Gpu, pending: OwnedState, f: nat, answers: Answers, ghost keep: set<Handle>)
    returns (frame: SwapFrame, ok: bool)
    requires |pending.frames| == MAX_FRAMES && f < MAX_FRAMES && pending.frames[f] == NO_FRAME
    requires Owns(gpu, keep, Order(pending))
    modifies gpu
    ensures Owns(gpu, keep, Order(WithFrame(pending, f, frame)))
    ensures ok ==> FrameSet(frame) && frame.cmd == answers.buffers(f)
    ensures ok <==> forall step :: 0 <= step < 5 ==> answers.sync(f, step)
  {
    ghost var order := Order(pending);
    frame := NO_FRAME;
    FrameSlots(pending, f, frame);
    assert order[4 * f..4 * f + 4] == [NULL, NULL, NULL, NULL];
    assert order[4 * f] == NULL && order[4 * f + 1] == NULL && order[4 * f + 2] == NULL && order[4 * f + 3] == NULL;
    var pool := CreateAt(gpu, answers.sync(f, 0), keep, order, 4 * f + 3);
    frame := frame.(pool := pool);
    order := order[4 * f + 3 := pool];
    SlotsSoFar(pending, f, frame, order);
    if !answers.sync(f, 0) || !answers.sync(f, 1) { return frame, false; }
    frame := frame.(cmd := answers.buffers(f));
    frame, ok := CreateSignals(gpu, pending, f, frame, answers, keep, order);
  }

  /** The fence and the two semaphores. */
  method CreateSignals(gpu: Gpu, ghost pending: OwnedState, f: nat, made: SwapFrame, answers: Answers,
                       ghost keep: set<Handle>, ghost slots: seq<Handle>)
    returns (frame: SwapFrame, ok: bool)
    requires |pending.frames| == MAX_FRAMES && f < MAX_FRAMES
    requires made.fence == NULL && made.imageReady == NULL && made.renderDone == NULL
    requires SlotsOf(pending, f, made, slots) && Owns(gpu, keep, slots)
    modifies gpu
    ensures Owns(gpu, keep, Order(WithFrame(pending, f, frame)))
    ensures frame.pool == made.pool && frame.cmd == made.cmd
    ensures ok ==> frame.fence != NULL && frame.imageReady != NULL && frame.renderDone != NULL
    ensures ok <==> answers.sync(f, 2) && answers.sync(f, 3) && answers.sync(f, 4)
  {
    frame := made;
    ghost var order := slots;
    var fence := CreateAt(gpu, answers.sync(f, 2), keep, order, 4 * f + 2);
    frame := frame.(fence := fence);
    order := order[4 * f + 2 := fence];
    SlotsSoFar(pending, f, frame, order);
    if !answers.sync(f, 2) { return frame, false; }
    var imageReady := CreateAt(gpu, answers.sync(f, 3), keep, order, 4 * f + 1);
    frame := frame.(imageReady := imageReady);
    order := order[4 * f + 1 := imageReady];
    SlotsSoFar(pending, f, frame, order);
    if !answers.sync(f, 3) { return frame, false; }
    var renderDone := CreateAt(gpu, answers.sync(f, 4), keep, order, 4 * f);
    frame := frame.(renderDone := renderDone);
    order := order[4 * f := renderDone];
    SlotsSoFar(pending, f, frame, order);
    return frame, answers.sync(f, 4);
  }

  /** The slots of the state with its frame f replaced by the one made so far. */
  ghost predicate SlotsOf(pending: OwnedState, f: nat, frame: SwapFrame, order: seq<Handle>)
    requires |pending.frames| == MAX_FRAMES && f < MAX_FRAMES
  {
    && |order| == |Order(pending)|
    && (forall i :: 0 <= i < |order| && !(4 * f <= i < 4 * f + 4) ==> order[i] == Order(pending)[i])
    && order[4 * f] == frame.renderDone && order[4 * f + 1] == frame.imageReady
    && order[4 * f + 2] == frame.fence && order[4 * f + 3] == frame.pool
  }

  lemma SlotsSoFar(pending: OwnedState, f: nat, frame: SwapFrame, order: seq<Handle>)
    requires |pending.frames| == MAX_FRAMES && f < MAX_FRAMES && SlotsOf(pending, f, frame, order)
    ensures Order(WithFrame(pending, f, frame)) == order
  {
    FrameSlots(pending, f, frame);
  }

  method CreateSync(gpu: Gpu, pending: OwnedState, answers: Answers, ghost keep: set<Handle>)
    returns (s: OwnedState, ok: bool)
    requires pending.frames == EMPTY.frames && Owns(gpu, keep, Order(pending))
    modifies gpu
    ensures |s.frames| == MAX_FRAMES && Owns(gpu, keep, Order(s))
    ensures s == pending.(frames := s.frames)
    ensures ok ==> forall f :: 0 <= f < MAX_FRAMES ==> FrameSet(s.frames[f]) && s.frames[f].cmd == answers.buffers(f)
    ensures ok <==> forall f, step :: 0 <= f < MAX_FRAMES && 0 <= step < 5 ==> answers.sync(f, step)
  {
    s := pending;
    for f := 0 to MAX_FRAMES
      invariant |s.frames| == MAX_FRAMES && s == pending.(frames := s.frames) && Owns(gpu, keep, Order(s))
      invariant forall k :: 0 <= k < f ==> FrameSet(s.frames[k]) && s.frames[k].cmd == answers.buffers(k)
      invariant forall k :: f <= k < MAX_FRAMES ==> s.frames[k] == NO_FRAME
      invariant forall k, step :: 0 <= k < f && 0 <= step < 5 ==> answers.sync(k, step)
    {
      var frame, done := CreateFrame(gpu, s, f, answers, keep);
      s := WithFrame(s, f, frame);
      if !done { return s, false; }
    }
    return s, true;
  }

  /** A whole build: a complete state, or every handle it had created destroyed again. */
  method Build(gpu: Gpu, answers: Answers, ghost keep: set<Handle>) returns (s: OwnedState, ok: bool)
    requires gpu.Valid() && gpu.live == keep
    modifies gpu
    ensures ok <==> Willing(answers)
    ensures ok ==> Complete(s) && Owns(gpu, keep, Order(s)) && FromDriver(s, answers)
    ensures !ok ==> gpu.Valid() && gpu.live == keep
  {
    s, ok := CreateSwapchain(gpu, answers, keep);
    if ok { s, ok := CreateImageViews(gpu, s, answers, keep); }
    if ok { s, ok := CreateSync(gpu, s, answers, keep); }
    if !ok { DestroyOwned(gpu, s, keep); }
  }

  // ---------------------------------------------------------------------------------------
  // The swapchain and its tokens.
  // ---------------------------------------------------------------------------------------

  /** What a token carries. */
  datatype Token = Token(
    generation: nat, serial: nat, slot: nat, index: nat, frame: SwapFrame, image: nat, view: Handle, extent: Extent)

  /** The token carries the handles and the command buffer of that frame slot, and the image, its
      view and the extent of that image index. */
  predicate Carries(t: Token, s: OwnedState, slot: nat, index: nat) {
    && slot < |s.frames| && index < |s.images| && index < |s.views|
    && t.slot == slot && t.index == index
    && t.frame.pool == s.frames[slot].pool && t.frame.cmd == s.frames[slot].cmd
    && t.frame.fence == s.frames[slot].fence
    && t.frame.imageReady == s.frames[slot].imageReady && t.frame.renderDone == s.frames[slot].renderDone
    && t.image == s.images[index] && t.view == s.views[index] && t.extent == s.extent
  }

  /** The holder of a token: it can be moved, never copied. */
  class AcquiredFrame {
    var token: Option<Token>

    constructor (token: Option<Token>)
      ensures this.token == token
    {
      this.token := token;
    }

    constructor Move(source: AcquiredFrame)
      modifies source
      ensures token == old(source.token) && source.token == None
    {
      token := source.token;
      new;
      source.token := None;
    }
  }

  /** The answers to the calls that begin and end a frame. */
  datatype BeginAnswers = BeginAnswers(wait: bool, acquire: bool, image: nat, reset: bool, begin: bool)
  datatype EndAnswers = EndAnswers(end: bool, resetFence: bool, submit: bool, present: bool)

  class VkSwapchain {
    const gpu: Gpu
    /** Handles that belong to others. */
    ghost const keep: set<Handle>
    var device: bool
    var state: OwnedState
    var frameIndex: nat
    var generation: nat
    var nextSerial: nat
    var activeSerial: nat
    /** Every token ever given out. */
    ghost var issued: seq<Token>
    /** The driver's side: whether the fence of each frame is signalled, or will be by work already
        submitted. */
    var signalled: seq<bool>

    ghost predicate Valid()
      reads this, gpu
    {
      && |state.frames| == MAX_FRAMES && Owns(gpu, keep, Order(state))
      && (if device then Complete(state) else state == EMPTY)
      && frameIndex < MAX_FRAMES
      && TokensOk() && FencesOk()
    }

    /** Only the fence of the current frame can be left unsignalled, and not while it is open. */
    ghost predicate FencesOk()
      reads this`signalled, this`frameIndex, this`activeSerial
    {
      && |signalled| == MAX_FRAMES
      && (forall f :: 0 <= f < MAX_FRAMES && f != frameIndex ==> signalled[f])
      && (activeSerial != 0 && frameIndex < MAX_FRAMES ==> signalled[frameIndex])
    }

    /** A begin would wait for a fence nothing will ever signal. */
    ghost predicate Stuck()
      reads this`device, this`signalled, this`frameIndex
    {
      device && frameIndex < |signalled| && !signalled[frameIndex]
    }

    /** Tokens are numbered 1, 2, 3, …; if a frame is open, its token is the last one and every
        part of it is still the swapchain's. */
    ghost predicate TokensOk()
      reads this
    {
      && nextSerial == |issued| + 1
      && (forall i :: 0 <= i < |issued| ==> issued[i].serial == i + 1)
      && (activeSerial != 0 ==>
            && device && activeSerial == |issued| && Current(issued[|issued| - 1])
            && |state.frames| == MAX_FRAMES && frameIndex < MAX_FRAMES
            && Carries(issued[|issued| - 1], state, frameIndex, issued[|issued| - 1].index))
    }

    predicate Current(t: Token)
      reads this
    {
      t.generation == generation && t.slot < |state.frames| && t.index < |state.images| && t.index < |state.views|
    }

    predicate Accepts(t: Token)
      reads this
    {
      Current(t) && t.serial != 0 && t.serial == activeSerial
    }

    predicate IsReady()
      reads this
    {
      state.swapchain != NULL && state.images != [] && |state.images| == |state.views|
    }

    constructor (gpu: Gpu)
      requires gpu.Valid()
      ensures Valid() && issued == [] && this.gpu == gpu && keep == gpu.live
    {
      this.gpu, keep := gpu, gpu.live;
      device, state, frameIndex := false, EMPTY, 0;
      generation, nextSerial, activeSerial, issued, signalled := 1, 1, 0, [], [true, true];
      new;
      assert Owned(Order(EMPTY)) == {};
    }

    /** At most one token ever issued is accepted, and only while a frame is open. */
    lemma OneTokenAccepted(i: nat)
      requires Valid() && i < |issued|
      ensures Accepts(issued[i]) <==> activeSerial != 0 && i == |issued| - 1
    {
    }

    method Init(contextReady: bool, width: nat, height: nat, answers: Answers) returns (ok: bool)
      requires Valid()
      modifies this, gpu
      ensures Valid() && issued == old(issued)
      ensures ok <==> old(device) || (contextReady && width != 0 && height != 0 && Willing(answers))
      ensures old(device) || !ok ==> FieldsAre(old(Fields())) && gpu.live == old(gpu.live)
      ensures !old(device) && ok ==>
                && device && activeSerial == 0 && frameIndex == 0 && generation > old(generation)
                && FromDriver(state, answers) && !Stuck()
    {
      if IsReady() { return true; }
      if !contextReady || width == 0 || height == 0 { return false; }
      assert !device && Owned(Order(EMPTY)) == {};
      var pending, built := Build(gpu, answers, keep);
      if !built { return false; }
      // The source shuts the empty state down here, which only moves the generation on.
      activeSerial, frameIndex := 0, 0;
      generation := generation + 1;
      device, state := true, pending;
      signalled := [true, true];
      generation := generation + 1;
      return true;
    }

    method Rebuild(waited: bool, width: nat, height: nat, answers: Answers) returns (ok: bool)
      requires Valid()
      modifies this, gpu
      ensures Valid() && issued == old(issued)
      ensures ok <==> old(device) && old(activeSerial) == 0 && width != 0 && height != 0 && waited && Willing(answers)
      ensures !ok ==> FieldsAre(old(Fields())) && gpu.live == old(gpu.live)
      ensures ok ==> activeSerial == 0 && frameIndex == 0 && generation == old(generation) + 1
      ensures ok ==> Owned(Order(state)) !! old(Owned(Order(state))) && FromDriver(state, answers) && !Stuck()
    {
      if !IsReady() || activeSerial != 0 || width == 0 || height == 0 { return false; }
      if !waited { return false; }
      var pending, built := Build(gpu, answers, keep + Owned(Order(state)));
      if !built { return false; }
      ghost var fresh' := Owned(Order(pending));
      DestroyOwned(gpu, state, keep + fresh');
      state, frameIndex, activeSerial, signalled := pending, 0, 0, [true, true];
      generation := generation + 1;
      return true;
    }

    method Shutdown()
      requires Valid()
      modifies this, gpu`live
      ensures Valid() && issued == old(issued)
      ensures !device && activeSerial == 0 && gpu.live == keep
      ensures generation == old(generation) + 1
    {
      activeSerial := 0;
      generation := generation + 1;
      frameIndex := 0;
      signalled := [true, true];
      assert Owned(Order(EMPTY)) == {};
      if !device {
        state := EMPTY;
        return;
      }
      DestroyOwned(gpu, state, keep);
      state := EMPTY;
      device := false;
    }

    /** `blocked`: the wait for the frame's fence, which has no limit, never returns. */
    method BeginFrame(answers: BeginAnswers) returns (frame: Option<AcquiredFrame>, blocked: bool)
      requires Valid()
      modifies this
      ensures Valid()
      ensures state == old(state) && generation == old(generation) && signalled == old(signalled)
      ensures device == old(device) && frameIndex == old(frameIndex)
      ensures blocked <==> Stuck() && old(activeSerial) == 0 && state.frames[frameIndex].cmd != NULL && answers.wait
      ensures frame.Some? <==>
                && old(device) && old(activeSerial) == 0 && old(state).frames[frameIndex].cmd != NULL
                && answers.wait && !blocked && answers.acquire
                && answers.image < |old(state).images| && answers.reset && answers.begin
      ensures frame.None? ==> FieldsAre(old(Fields())) && issued == old(issued)
      ensures frame.Some? ==>
                && fresh(frame.value) && frame.value.token.Some?
                && issued == old(issued) + [frame.value.token.value] && Accepts(frame.value.token.value)
                && Carries(frame.value.token.value, old(state), old(frameIndex), answers.image)
                && frame.value.token.value.generation == old(generation)
                && frame.value.token.value.serial == old(nextSerial) == activeSerial
                && nextSerial == old(nextSerial) + 1
    {
      blocked := false;
      if !IsReady() || activeSerial != 0 || frameIndex >= |state.frames| { return None, false; }
      assert FrameSet(state.frames[frameIndex]);
      if state.frames[frameIndex].cmd == NULL { return None, false; }
      if !answers.wait { return None, false; }
      if !signalled[frameIndex] { return None, true; }
      if !answers.acquire || answers.image >= |state.images| || answers.image >= |state.views| { return None, false; }
      if !answers.reset || !answers.begin { return None, false; }
      var token := TokenFor(answers.image, nextSerial);
      activeSerial := nextSerial;
      nextSerial := nextSerial + 1;
      issued := issued + [token];
      var holder := new AcquiredFrame(Some(token));
      frame := Some(holder);
    }

    function TokenFor(image: nat, serial: nat): Token
      requires frameIndex < |state.frames| && image < |state.images| && image < |state.views|
      reads this`state, this`frameIndex, this`generation
    {
      Token(generation, serial, frameIndex, image, state.frames[frameIndex], state.images[image], state.views[image],
            state.extent)
    }

    /** Whatever happens to the calls, an accepted token is spent. A fence that was reset for a
        submit that then failed is never signalled again. */
    method EndFrame(frame: AcquiredFrame, answers: EndAnswers) returns (ok: bool)
      requires Valid() && Issued(frame, issued)
      modifies this, frame
      ensures Valid() && issued == old(issued) && state == old(state) && generation == old(generation)
      ensures device == old(device)
      ensures ok <==> old(frame.token.Some? && Accepts(frame.token.value))
                      && answers.end && answers.resetFence && answers.submit && answers.present
      ensures old(frame.token.Some? && Accepts(frame.token.value)) ==> activeSerial == 0 && frame.token == None
      ensures old(frame.token.Some? && Accepts(frame.token.value)) ==>
                && frameIndex == (if answers.end && answers.resetFence && answers.submit
                                  then (old(frame.token.value.slot) + 1) % MAX_FRAMES else old(frameIndex))
                && (Stuck() <==> answers.end && answers.resetFence && !answers.submit)
      ensures !old(frame.token.Some? && Accepts(frame.token.value)) ==>
                FieldsAre(old(Fields())) && frame.token == old(frame.token)
    {
      if frame.token.None? || !Accepts(frame.token.value) { return false; }
      var slot := frame.token.value.slot;
      activeSerial := 0;
      frame.token := None;
      ok := false;
      if answers.end && answers.resetFence {
        signalled := signalled[slot := answers.submit];
        if answers.submit {
          frameIndex := (slot + 1) % MAX_FRAMES;
          ok := answers.present;
        }
      }
    }

    ghost function Fields(): (bool, OwnedState, nat, nat, nat, nat, seq<bool>)
      reads this
    {
      (device, state, frameIndex, generation, nextSerial, activeSerial, signalled)
    }

    ghost predicate FieldsAre(fields: (bool, OwnedState, nat, nat, nat, nat, seq<bool>))
      reads this
    {
      Fields() == fields
    }

    /** A token no longer accepted is never accepted again, whatever is called. */
    method Call(call: Call, holder: Option<AcquiredFrame>) returns (given: Option<AcquiredFrame>)
      requires Valid() && (holder.Some? ==> Issued(holder.value, issued))
      modifies this, gpu, if holder.Some? then {holder.value} else {}
      ensures Valid() && old(issued) <= issued
      ensures forall i :: 0 <= i < |old(issued)| && !old(Accepts(issued[i])) ==> !Accepts(issued[i])
      ensures gpu.live == keep + Owned(Order(state))
      ensures given.Some? ==> fresh(given.value) && given.value.token.Some?
                              && issued == old(issued) + [given.value.token.value]
      ensures given.None? ==> issued == old(issued)
      ensures holder.Some? ==> holder.value.token == None || holder.value.token == old(holder.value.token)
      ensures old(Stuck()) && generation == old(generation) ==> Stuck() && given.None?
    {
      given := None;
      match call {
        case InitCall(ready, width, height, answers) => var _ := Init(ready, width, height, answers);
        case RebuildCall(waited, width, height, answers) => var _ := Rebuild(waited, width, height, answers);
        case ShutdownCall => Shutdown();
        case BeginCall(answers) =>
          var blocked;
          given, blocked := BeginFrame(answers);
        case EndCall(answers) => if holder.Some? { var _ := EndFrame(holder.value, answers); }
      }
    }
  }

  /** One move of the program that uses the swapchain: a call, offering one of the holders it
      has, or moving a token from one holder to a new one. */
  datatype Action = CallWith(call: Call, pick: nat) | MoveToken(pick: nat)

  /** No two holders share a token, and every token they hold was issued. */
  ghost predicate HeldOk(held: seq<AcquiredFrame>, issued: seq<Token>)
    reads held
  {
    && (forall k :: 0 <= k < |held| ==> Issued(held[k], issued))
    && (forall j, k :: 0 <= j < k < |held| ==> Apart(held[j], held[k]))
  }

  /** A holder only ever has a token some begin issued: nothing else makes one. */
  ghost predicate Issued(h: AcquiredFrame, issued: seq<Token>)
    reads h
  {
    h.token.Some? ==> h.token.value in issued
  }

  ghost predicate Apart(a: AcquiredFrame, b: AcquiredFrame)
    reads a, b
  {
    a != b && (a.token.Some? && b.token.Some? ==> a.token.value.serial != b.token.value.serial)
  }

  method Act(swapchain: VkSwapchain, action: Action, held: seq<AcquiredFrame>) returns (now: seq<AcquiredFrame>)
    requires swapchain.Valid() && HeldOk(held, swapchain.issued)
    modifies swapchain, swapchain.gpu, held
    ensures swapchain.Valid() && old(swapchain.issued) <= swapchain.issued
    ensures forall i :: 0 <= i < |old(swapchain.issued)| && !old(swapchain.Accepts(swapchain.issued[i])) ==>
                          !swapchain.Accepts(swapchain.issued[i])
    ensures HeldOk(now, swapchain.issued)
    ensures held <= now && forall k :: |held| <= k < |now| ==> fresh(now[k])
  {
    if action.CallWith? {
      now := Offer(swapchain, action.call, action.pick, held);
    } else {
      now := MoveOne(action.pick, held, swapchain.issued);
    }
  }

  method Offer(swapchain: VkSwapchain, call: Call, pick: nat, held: seq<AcquiredFrame>)
    returns (now: seq<AcquiredFrame>)
    requires swapchain.Valid() && HeldOk(held, swapchain.issued)
    modifies swapchain, swapchain.gpu, held
    ensures swapchain.Valid() && old(swapchain.issued) <= swapchain.issued
    ensures forall i :: 0 <= i < |old(swapchain.issued)| && !old(swapchain.Accepts(swapchain.issued[i])) ==>
                          !swapchain.Accepts(swapchain.issued[i])
    ensures HeldOk(now, swapchain.issued)
    ensures held <= now && forall k :: |held| <= k < |now| ==> fresh(now[k])
  {
    var holder := if pick < |held| then Some(held[pick]) else None;
    var given := swapchain.Call(call, holder);
    now := if given.Some? then held + [given.value] else held;
    if given.Some? {
      assert given.value.token.value == swapchain.issued[|swapchain.issued| - 1];
      assert given.value.token.value.serial == |swapchain.issued|;
    }
    forall k | 0 <= k < |now| ensures Issued(now[k], swapchain.issued) {
      if k < |held| { assert old(Issued(held[k], swapchain.issued)); }
    }
    forall j, k | 0 <= j < k < |now| ensures Apart(now[j], now[k]) {
      if k < |held| {
        assert old(Apart(held[j], held[k]));
      } else {
        assert old(Issued(held[j], swapchain.issued));
      }
    }
  }

  method MoveOne(pick: nat, held: seq<AcquiredFrame>, ghost issued: seq<Token>) returns (now: seq<AcquiredFrame>)
    requires HeldOk(held, issued)
    modifies held
    ensures HeldOk(now, issued)
    ensures held <= now && forall k :: |held| <= k < |now| ==> fresh(now[k])
  {
    now := held;
    if pick < |held| {
      var moved := new AcquiredFrame.Move(held[pick]);
      now := held + [moved];
      forall k | 0 <= k < |now| ensures Issued(now[k], issued) {
        assert old(Issued(held[if k < |held| then k else pick], issued));
      }
      forall j, k | 0 <= j < k < |now| ensures Apart(now[j], now[k]) {
        if k < |held| {
          assert old(Apart(held[j], held[k]));
        } else if j != pick {
          assert old(Apart(held[if j < pick then j else pick], held[if j < pick then pick else j]));
        }
      }
    }
  }

  /** Over every run of calls, with any holder offered and any token moved in between: at most
      one holder has a token the swapchain accepts, and the live handles are those it owns. */
  method Run(swapchain: VkSwapchain, actions: seq<Action>) returns (held: seq<AcquiredFrame>)
    requires swapchain.Valid()
    modifies swapchain, swapchain.gpu
    ensures swapchain.Valid() && old(swapchain.issued) <= swapchain.issued
    ensures swapchain.gpu.live == swapchain.keep + Owned(Order(swapchain.state))
    ensures forall i :: 0 <= i < |old(swapchain.issued)| && !old(swapchain.Accepts(swapchain.issued[i])) ==>
                          !swapchain.Accepts(swapchain.issued[i])
    ensures forall k :: 0 <= k < |held| ==> fresh(held[k])
    ensures forall j, k :: 0 <= j < k < |held| && held[j].token.Some? && held[k].token.Some? ==>
                             !(swapchain.Accepts(held[j].token.value) && swapchain.Accepts(held[k].token.value))
  {
    held := [];
    for i := 0 to |actions|
      invariant swapchain.Valid() && old(swapchain.issued) <= swapchain.issued
      invariant forall i :: 0 <= i < |old(swapchain.issued)| && !old(swapchain.Accepts(swapchain.issued[i])) ==>
                              !swapchain.Accepts(swapchain.issued[i])
      invariant forall k :: 0 <= k < |held| ==> fresh(held[k])
      invariant HeldOk(held, swapchain.issued)
    {
      held := Act(swapchain, actions[i], held);
    }
    assert forall j, k :: 0 <= j < k < |held| ==> Apart(held[j], held[k]);
  }

  /** Once shut down, everything the swapchain created has been destroyed and no token it ever
      gave out is accepted. */
  method RunThenShutdown(swapchain: VkSwapchain, actions: seq<Action>)
    requires swapchain.Valid()
    modifies swapchain, swapchain.gpu
    ensures swapchain.Valid() && swapchain.gpu.live == swapchain.keep
    ensures old(swapchain.issued) <= swapchain.issued
    ensures forall i :: 0 <= i < |swapchain.issued| ==> !swapchain.Accepts(swapchain.issued[i])
  {
    var _ := Run(swapchain, actions);
    swapchain.Shutdown();
  }

  datatype Call =
    | InitCall(ready: bool, width: nat, height: nat, answers: Answers)
    | RebuildCall(waited: bool, width: nat, height: nat, answers: Answers)
    | ShutdownCall
    | BeginCall(begin: BeginAnswers)
    | EndCall(end: EndAnswers)
}
