/**
 The byte-budgeted checkpoints of a take: the ring that decides what is kept
 (src/replay_inspection/checkpoint_ring.cpp), the store that follows it
 (src/audio_qa_inspection.cpp) and the plan that uses it
 (src/replay_inspection/recovery_planner.cpp).
 */
module Checkpoints {
  import opened Arithmetic
  import opened Collections
  import opened Integers
  import opened Options

  const INITIAL_FRAME: int := -1

  datatype Entry = Entry(frame: int, size: nat)

  ghost function Frames(entries: seq<Entry>): set<int> {
    set i | 0 <= i < |entries| :: entries[i].frame
  }

  ghost function Total(entries: seq<Entry>): nat {
    if entries == [] then 0 else entries[0].size + Total(entries[1..])
  }

  predicate Sorted(entries: seq<Entry>) {
    forall i, j :: 0 <= i < j < |entries| ==> entries[i].frame <= entries[j].frame
  }

  predicate HasInitial(entries: seq<Entry>) {
    entries != [] && entries[0].frame == INITIAL_FRAME
  }

  /** Sorted by frame, the initial state (frame -1) at most once and first. */
  predicate RingOk(entries: seq<Entry>) {
    && Sorted(entries)
    && (forall i :: 0 <= i < |entries| ==> entries[i].frame >= INITIAL_FRAME)
    && (forall i :: 1 <= i < |entries| ==> entries[i].frame >= 0)
  }

  function First(entries: seq<Entry>): nat { if HasInitial(entries) then 1 else 0 }

  function InitialSize(entries: seq<Entry>): nat {
    if HasInitial(entries) then entries[0].size else 0
  }

  /** Without the k oldest checkpoints after the initial one. */
  function Without(entries: seq<Entry>, k: nat): seq<Entry>
    requires First(entries) + k <= |entries|
  {
    entries[..First(entries)] + entries[First(entries) + k..]
  }

  /** What eviction leaves before a checkpoint of `size` bytes enters. */
  ghost function Kept(entries: seq<Entry>, size: nat, budget: nat): seq<Entry>
    decreases |entries|
  {
    if Total(entries) + size > budget && |entries| > First(entries)
    then Kept(Without(entries, 1), size, budget)
    else entries
  }

  /** Every K-th frame, and the initial state before the first; a frame is 32 bits wide. */
  predicate OnGrid(frame: int, interval: nat)
    requires interval > 0
  {
    (frame + 1) % TWO_32 % interval == 0
  }

  /** `std::upper_bound` by frame. */
  function UpperBound(entries: seq<Entry>, frame: int): (at: nat)
    requires Sorted(entries)
    ensures at <= |entries|
    ensures forall i :: 0 <= i < at ==> entries[i].frame <= frame
    ensures forall i :: at <= i < |entries| ==> entries[i].frame > frame
  {
    if entries == [] then 0
    else if entries[|entries| - 1].frame <= frame then |entries|
    else UpperBound(entries[..|entries| - 1], frame)
  }

  function Inserted(entries: seq<Entry>, e: Entry): seq<Entry>
    requires Sorted(entries)
  {
    var at := UpperBound(entries, e.frame);
    entries[..at] + [e] + entries[at..]
  }

  predicate Fits(entries: seq<Entry>, size: nat, budget: nat) {
    InitialSize(entries) + size <= budget
  }

  /** The ring after one `store` call. */
  ghost function Stored(entries: seq<Entry>, budget: nat, frame: nat, size: nat): seq<Entry>
    requires RingOk(entries)
  {
    KeptIsOk(entries, size, budget);
    if Fits(entries, size, budget) then Inserted(Kept(entries, size, budget), Entry(frame, size)) else entries
  }

  /** The last entry at or below `frame`, in ring order. */
  function Latest(entries: seq<Entry>, frame: int): Option<int> {
    if entries == [] then None
    else if entries[|entries| - 1].frame <= frame then Some(entries[|entries| - 1].frame)
    else Latest(entries[..|entries| - 1], frame)
  }

  lemma TotalSplit(a: seq<Entry>, b: seq<Entry>)
    ensures Total(a + b) == Total(a) + Total(b)
  {
    if a == [] {
      assert a + b == b;
    } else {
      assert (a + b)[1..] == a[1..] + b;
      TotalSplit(a[1..], b);
    }
  }

  /** Dropping the oldest checkpoint keeps the ring in order and its initial state. */
  lemma WithoutOldest(entries: seq<Entry>)
    requires RingOk(entries) && |entries| > First(entries)
    ensures RingOk(Without(entries, 1))
    ensures First(Without(entries, 1)) == First(entries)
    ensures InitialSize(Without(entries, 1)) == InitialSize(entries)
    ensures Total(entries) == Total(Without(entries, 1)) + entries[First(entries)].size
  {
    OldestLeavesOrder(entries);
    TotalWithoutOldest(entries);
  }

  lemma OldestLeavesOrder(entries: seq<Entry>)
    requires RingOk(entries) && |entries| > First(entries)
    ensures RingOk(Without(entries, 1))
    ensures First(Without(entries, 1)) == First(entries)
    ensures InitialSize(Without(entries, 1)) == InitialSize(entries)
  {
    if HasInitial(entries) {
      DropSecond(entries);
    } else {
      DropFirst(entries);
    }
  }

  lemma DropFirst(entries: seq<Entry>)
    requires RingOk(entries) && entries != [] && !HasInitial(entries)
    ensures Without(entries, 1) == entries[1..] && RingOk(entries[1..]) && !HasInitial(entries[1..])
  {
    var next := entries[1..];
    assert forall i :: 0 <= i < |next| ==> next[i] == entries[i + 1];
  }

  lemma DropSecond(entries: seq<Entry>)
    requires RingOk(entries) && |entries| > 1 && HasInitial(entries)
    ensures RingOk(Without(entries, 1)) && HasInitial(Without(entries, 1))
    ensures InitialSize(Without(entries, 1)) == InitialSize(entries)
  {
    var next := Without(entries, 1);
    assert next[0] == entries[0];
    assert forall i :: 1 <= i < |next| ==> next[i] == entries[i + 1];
  }

  lemma TotalWithoutOldest(entries: seq<Entry>)
    requires |entries| > First(entries)
    ensures Total(entries) == Total(Without(entries, 1)) + entries[First(entries)].size
  {
    var first := First(entries);
    if first == 0 {
      assert Without(entries, 1) == entries[1..];
    } else {
      assert entries[1..][1..] == entries[2..];
      assert Without(entries, 1)[1..] == entries[2..];
    }
  }

  lemma FramesWithout(entries: seq<Entry>, k: nat)
    requires First(entries) + k <= |entries|
    ensures Frames(Without(entries, k)) <= Frames(entries)
  {
    var next := Without(entries, k);
    forall f | f in Frames(next) ensures f in Frames(entries) {
      var i :| 0 <= i < |next| && next[i].frame == f;
      assert next[i] == entries[if i < First(entries) then i else i + k];
    }
  }

  lemma {:induction false} KeptIsOk(entries: seq<Entry>, size: nat, budget: nat)
    requires RingOk(entries)
    ensures RingOk(Kept(entries, size, budget))
    ensures First(Kept(entries, size, budget)) == First(entries)
    ensures InitialSize(Kept(entries, size, budget)) == InitialSize(entries)
    ensures Frames(Kept(entries, size, budget)) <= Frames(entries)
    ensures Fits(entries, size, budget) ==> Total(Kept(entries, size, budget)) + size <= budget
    decreases |entries|
  {
    if Total(entries) + size > budget && |entries| > First(entries) {
      WithoutOldest(entries);
      FramesWithout(entries, 1);
      KeptIsOk(Without(entries, 1), size, budget);
    } else if |entries| == First(entries) {
      OnlyInitial(entries);
    }
  }

  lemma OnlyInitial(entries: seq<Entry>)
    requires |entries| == First(entries)
    ensures Total(entries) == InitialSize(entries)
  {
    if entries != [] { assert entries[1..] == []; }
  }

  /** Eviction drops the oldest checkpoints only, never the initial one, and no more of them
      than the new checkpoint needs. */
  lemma {:induction false} EvictsOldestOnly(entries: seq<Entry>, size: nat, budget: nat) returns (k: nat)
    requires RingOk(entries)
    ensures First(entries) + k <= |entries|
    ensures Kept(entries, size, budget) == Without(entries, k)
    ensures k > 0 ==> Total(Without(entries, k - 1)) + size > budget
    decreases |entries|
  {
    assert Without(entries, 0) == entries;
    if Total(entries) + size > budget && |entries| > First(entries) {
      var next := Without(entries, 1);
      WithoutOldest(entries);
      var less := EvictsOldestOnly(next, size, budget);
      WithoutMore(entries, less);
      if less > 0 { WithoutMore(entries, less - 1); }
      k := less + 1;
    } else {
      k := 0;
    }
  }

  lemma WithoutMore(entries: seq<Entry>, k: nat)
    requires First(entries) + k + 1 <= |entries| && First(Without(entries, 1)) == First(entries)
    ensures Without(Without(entries, 1), k) == Without(entries, k + 1)
  {
    var first := First(entries);
    var next := Without(entries, 1);
    assert next[..first] == entries[..first];
    assert next[first + k..] == entries[first + k + 1..];
  }

  /** A stored ring: sorted, with its initial checkpoint, and within the budget. */
  lemma StoredIsOk(entries: seq<Entry>, budget: nat, frame: nat, size: nat)
    requires RingOk(entries)
    ensures RingOk(Stored(entries, budget, frame, size))
    ensures First(Stored(entries, budget, frame, size)) == First(entries)
    ensures InitialSize(Stored(entries, budget, frame, size)) == InitialSize(entries)
    ensures Fits(entries, size, budget) ==>
              && Total(Stored(entries, budget, frame, size)) == Total(Kept(entries, size, budget)) + size
              && Total(Stored(entries, budget, frame, size)) <= budget
              && Frames(Stored(entries, budget, frame, size)) == Frames(Kept(entries, size, budget)) + {frame}
              && Frames(Kept(entries, size, budget)) <= Frames(entries)
  {
    KeptIsOk(entries, size, budget);
    if Fits(entries, size, budget) {
      var kept := Kept(entries, size, budget);
      InsertedIsOk(kept, Entry(frame, size));
      InsertedAddsOne(kept, Entry(frame, size));
    }
  }

  /** Storing a checkpoint adds at most its size to the total; as long as everything asked for so
      far fits the budget together, it is accepted and nothing is evicted. */
  lemma StoreAccounts(entries: seq<Entry>, budget: nat, frame: nat, size: nat, asked: nat)
    requires RingOk(entries) && Total(entries) <= asked
    ensures Fits(entries, size, budget) ==> Total(Stored(entries, budget, frame, size)) <= asked + size
    ensures asked + size <= budget ==>
              && Fits(entries, size, budget)
              && Frames(Stored(entries, budget, frame, size)) == Frames(entries) + {frame}
  {
    TotalFromFirst(entries);
    StoredIsOk(entries, budget, frame, size);
    if asked + size <= budget { assert Kept(entries, size, budget) == entries; }
  }

  lemma InsertedIsOk(entries: seq<Entry>, e: Entry)
    requires RingOk(entries) && e.frame >= 0
    ensures RingOk(Inserted(entries, e))
    ensures First(Inserted(entries, e)) == First(entries)
    ensures InitialSize(Inserted(entries, e)) == InitialSize(entries)
  {
    var at := UpperBound(entries, e.frame);
    var all := Inserted(entries, e);
    assert forall i :: 0 <= i < at ==> all[i] == entries[i];
    assert all[at] == e;
    assert forall i :: at < i < |all| ==> all[i] == entries[i - 1];
    forall i, j | 0 <= i < j < |all| ensures all[i].frame <= all[j].frame {
      if j < at {
      } else if j == at {
      } else if i > at {
        assert entries[i - 1].frame <= entries[j - 1].frame;
      }
    }
  }

  lemma InsertedAddsOne(entries: seq<Entry>, e: Entry)
    requires RingOk(entries)
    ensures Total(Inserted(entries, e)) == Total(entries) + e.size
    ensures Frames(Inserted(entries, e)) == Frames(entries) + {e.frame}
  {
    var at := UpperBound(entries, e.frame);
    assert entries == entries[..at] + entries[at..];
    TotalSplit(entries[..at], entries[at..]);
    TotalSplit(entries[..at] + [e], entries[at..]);
    TotalSplit(entries[..at], [e]);
    InsertedFrames(entries, e);
  }

  lemma InsertedFrames(entries: seq<Entry>, e: Entry)
    requires RingOk(entries)
    ensures Frames(Inserted(entries, e)) == Frames(entries) + {e.frame}
  {
    var at := UpperBound(entries, e.frame);
    var all := Inserted(entries, e);
    forall f | f in Frames(entries) + {e.frame} ensures f in Frames(all) {
      if f == e.frame {
        assert all[at].frame == f;
      } else {
        var i :| 0 <= i < |entries| && entries[i].frame == f;
        assert all[if i < at then i else i + 1].frame == f;
      }
    }
    forall f | f in Frames(all) ensures f in Frames(entries) + {e.frame} {
      var i :| 0 <= i < |all| && all[i].frame == f;
      if i != at { assert entries[if i < at then i else i - 1].frame == f; }
    }
  }

  /** The lookup: the greatest stored frame at or below the one asked for, if there is one. */
  lemma {:induction false} LatestIsGreatest(entries: seq<Entry>, frame: int)
    requires Sorted(entries)
    ensures Latest(entries, frame).None? <==> forall f :: f in Frames(entries) ==> f > frame
    ensures Latest(entries, frame).Some? ==>
              && Latest(entries, frame).value in Frames(entries)
              && Latest(entries, frame).value <= frame
              && forall f :: f in Frames(entries) && f <= frame ==> f <= Latest(entries, frame).value
  {
    if entries != [] {
      var last := entries[|entries| - 1];
      var rest := entries[..|entries| - 1];
      LatestIsGreatest(rest, frame);
      assert last.frame in Frames(entries);
      assert Frames(entries) == Frames(rest) + {last.frame};
    }
  }

  lemma TotalFromFirst(entries: seq<Entry>)
    ensures Total(entries) == InitialSize(entries) + Total(entries[First(entries)..])
  {
    if !HasInitial(entries) { assert entries[0..] == entries; }
  }

  class CheckpointRing {
    const interval: nat
    const budget: nat
    var total: nat
    var entries: seq<Entry>

    ghost predicate Valid()
      reads this
    {
      && interval > 0
      && 2 * budget < TWO_64
      && RingOk(entries)
      && total == Total(entries)
    }

    constructor (interval: nat, budget: nat)
      requires 2 * budget < TWO_64
      ensures Valid() && entries == []
      ensures this.interval == (if interval == 0 then 1 else interval) && this.budget == budget
    {
      this.interval := if interval == 0 then 1 else interval;
      this.budget, total, entries := budget, 0, [];
    }

    /** A checkpoint is taken after every K-th frame. */
    predicate ShouldCapture(frame: nat)
      requires interval > 0
    {
      OnGrid(frame, interval)
    }

    method StoreInitial(size: nat)
      requires Valid()
      modifies this
      ensures Valid()
      ensures HasInitial(entries) && InitialSize(entries) == size
      ensures entries[1..] == old(entries)[First(old(entries))..]
    {
      ghost var before := entries;
      TotalFromFirst(entries);
      if entries != [] && entries[0].frame == INITIAL_FRAME {
        total := total - entries[0].size;
        entries := [entries[0].(size := size)] + entries[1..];
      } else {
        entries := [Entry(INITIAL_FRAME, size)] + entries;
      }
      assert entries[1..] == before[First(before)..];
      total := total + size;
    }

    method Store(frame: nat, size: nat) returns (ok: bool)
      requires Valid()
      modifies this
      ensures Valid()
      ensures ok <==> Fits(old(entries), size, budget)
      ensures ok <==> (if HasInitial(old(entries)) then old(entries)[0].size else 0) + size <= budget
      ensures entries == Stored(old(entries), budget, frame, size)
      ensures ok ==> total <= budget
    {
      ghost var before := entries;
      var initial := if HasInitial(entries) then entries[0].size else 0;
      if initial > budget || size > budget - initial {
        return false;
      }
      var first := if HasInitial(entries) then 1 else 0;
      while total + size > budget && |entries| > first
        invariant Valid()
        invariant first == First(entries)
        invariant InitialSize(entries) == InitialSize(before)
        invariant Kept(entries, size, budget) == Kept(before, size, budget)
        decreases |entries|
      {
        WithoutOldest(entries);
        total := total - entries[first].size;
        entries := entries[..first] + entries[first + 1..];
      }
      StoredIsOk(before, budget, frame, size);
      var at := UpperBound(entries, frame);
      entries := entries[..at] + [Entry(frame, size)] + entries[at..];
      total := total + size;
      return true;
    }

    method LatestAtMost(frame: int) returns (found: Option<int>)
      ensures found == Latest(entries, frame)
    {
      found := None;
      for i := 0 to |entries|
        invariant found == Latest(entries[..i], frame)
      {
        assert entries[..i + 1][..i] == entries[..i];
        if entries[i].frame <= frame { found := Some(entries[i].frame); }
      }
      assert entries[..|entries|] == entries;
    }
  }

  // ---------------------------------------------------------------------------------------
  // Runs of the ring.
  // ---------------------------------------------------------------------------------------

  /** The ring after storing the initial state and then a run of checkpoints. */
  ghost function AfterStores(initial: nat, budget: nat, stores: seq<(nat, nat)>): (entries: seq<Entry>)
    ensures RingOk(entries)
  {
    if stores == [] then [Entry(INITIAL_FRAME, initial)]
    else
      var before := AfterStores(initial, budget, stores[..|stores| - 1]);
      var s := stores[|stores| - 1];
      StoredIsOk(before, budget, s.0, s.1);
      Stored(before, budget, s.0, s.1)
  }

  ghost function Asked(stores: seq<(nat, nat)>): nat {
    if stores == [] then 0 else Asked(stores[..|stores| - 1]) + stores[|stores| - 1].1
  }

  ghost function AskedFrames(stores: seq<(nat, nat)>): set<int> {
    if stores == [] then {INITIAL_FRAME} else AskedFrames(stores[..|stores| - 1]) + {stores[|stores| - 1].0}
  }

  /** Over every run of stores: the initial checkpoint is never lost, the ring stays within its
      budget, and what it holds was stored; if everything fits together, nothing is evicted. */
  lemma {:induction false} RingRun(initial: nat, budget: nat, stores: seq<(nat, nat)>)
    requires initial <= budget
    ensures var ring := AfterStores(initial, budget, stores);
            && HasInitial(ring) && InitialSize(ring) == initial
            && Total(ring) <= budget
            && Frames(ring) <= AskedFrames(stores)
            && (initial + Asked(stores) <= budget ==>
                  Total(ring) == initial + Asked(stores) && Frames(ring) == AskedFrames(stores))
  {
    if stores == [] {
      assert AfterStores(initial, budget, stores)[1..] == [];
      assert Frames(AfterStores(initial, budget, stores)) == {INITIAL_FRAME};
    } else {
      var rest := stores[..|stores| - 1];
      var s := stores[|stores| - 1];
      RingRun(initial, budget, rest);
      var before := AfterStores(initial, budget, rest);
      StoredIsOk(before, budget, s.0, s.1);
      if initial + Asked(stores) <= budget {
        assert Kept(before, s.1, budget) == before;
      }
    }
  }

  // ---------------------------------------------------------------------------------------
  // The plan of a recovery.
  // ---------------------------------------------------------------------------------------

  datatype Plan =
    | StepPlan(confirmed: nat, target: nat)
    | RestorePlan(checkpoint: int, replayFrom: nat, replayTo: nat)
    | Impossible

  /** How to reach `target` from the last checkpoint before it. */
  function PlanRestore(entries: seq<Entry>, target: nat): (plan: Plan)
    requires RingOk(entries)
  {
    match Latest(entries, target - 1)
    case None => Impossible
    case Some(checkpoint) => LatestIsGreatest(entries, target - 1); RestorePlan(checkpoint, checkpoint + 1, target)
  }

  function PlanRecovery(entries: seq<Entry>, confirmed: nat, target: nat): Plan
    requires RingOk(entries)
  {
    if target == confirmed + 1 then StepPlan(confirmed, target) else PlanRestore(entries, target)
  }

  /** With the initial checkpoint a restore always exists: it starts from the stored frame
      nearest below the target and ends at the target. */
  lemma RestoreIsNearest(entries: seq<Entry>, target: nat)
    requires RingOk(entries) && HasInitial(entries)
    ensures var plan := PlanRestore(entries, target);
            && plan.RestorePlan?
            && plan.checkpoint in Frames(entries)
            && plan.replayFrom == plan.checkpoint + 1 <= target == plan.replayTo
            && forall f :: f in Frames(entries) && f < target ==> f <= plan.checkpoint
  {
    LatestIsGreatest(entries, target - 1);
    assert entries[0].frame in Frames(entries);
  }

  /** The last frame of the capture grid below the target; the initial state if there is none. */
  function LastGrid(target: nat, interval: nat): int
    requires interval > 0
  {
    target / interval * interval - 1
  }

  lemma LastGridIsNear(target: nat, interval: nat)
    requires interval > 0 && target < TWO_32
    ensures INITIAL_FRAME <= LastGrid(target, interval) < target
    ensures target - LastGrid(target, interval) <= interval
  {
    assert target == target / interval * interval + target % interval;
    MulMonotone(0, target / interval, interval);
  }

  lemma LastGridIsOnGrid(target: nat, interval: nat)
    requires interval > 0 && target < TWO_32
    ensures OnGrid(LastGrid(target, interval), interval)
  {
    LastGridIsNear(target, interval);
    DivModUnique(target / interval, 0, interval);
  }

  lemma EarlierGrid(target: nat, interval: nat, c: int)
    requires interval > 0 && INITIAL_FRAME <= c < target && (c + 1) % interval == 0 && c != LastGrid(target, interval)
    ensures target - c > interval
  {
    var p, q := (c + 1) / interval, target / interval;
    assert c + 1 == p * interval;
    Distribute(q, p, interval);
    if p > q {
      MulMonotone(q + 1, p, interval);
      Distribute(q, 1, interval);
    } else if p < q {
      MulMonotone(1, q - p, interval);
    }
  }

  /** When only grid frames are stored, a restore re-simulates at most K frames if and only if
      the last grid frame below the target is among them. */
  lemma ReplayCost(entries: seq<Entry>, interval: nat, target: nat)
    requires RingOk(entries) && HasInitial(entries) && interval > 0 && target < TWO_32
    requires forall c :: c in Frames(entries) && c >= 0 ==> OnGrid(c, interval)
    ensures PlanRestore(entries, target).RestorePlan?
    ensures target - PlanRestore(entries, target).checkpoint <= interval <==>
            LastGrid(target, interval) in Frames(entries)
  {
    RestoreIsNearest(entries, target);
    LastGridIsNear(target, interval);
    var c := PlanRestore(entries, target).checkpoint;
    if c != LastGrid(target, interval) {
      assert OnGrid(c, interval);
      EarlierGrid(target, interval, c);
    }
  }

  // ---------------------------------------------------------------------------------------
  // The store: the states behind the ring's entries.
  // ---------------------------------------------------------------------------------------

  class CheckpointStore<S> {
    const ring: CheckpointRing
    var checkpoints: map<int, S>

    /** The store holds a state for exactly the frames the ring kept. */
    ghost predicate Valid()
      reads this, ring
    {
      ring.Valid() && checkpoints.Keys == Frames(ring.entries)
    }

    constructor (interval: nat, budget: nat)
      requires 2 * budget < TWO_64
      ensures Valid() && fresh(ring) && checkpoints == map[] && ring.entries == []
      ensures ring.budget == budget && ring.interval == (if interval == 0 then 1 else interval)
    {
      ring := new CheckpointRing(interval, budget);
      checkpoints := map[];
    }

    /** `exported` says whether the Engine serialized its state and its identity matched;
        `size` is the byte size of the checkpoint, shared PCM counted once. */
    method Capture(state: S, frame: int, exported: bool, size: nat) returns (ok: bool)
      requires Valid()
      modifies this, ring
      ensures Valid()
      ensures ok <==> exported && (frame == INITIAL_FRAME || (frame >= 0 && Fits(old(ring.entries), size, ring.budget)))
      ensures !ok ==> checkpoints == old(checkpoints) && ring.entries == old(ring.entries)
      ensures ok ==> frame in checkpoints && checkpoints[frame] == state
      ensures ok && frame >= 0 ==> ring.entries == Stored(old(ring.entries), ring.budget, frame, size)
      ensures ok && frame == INITIAL_FRAME ==>
                HasInitial(ring.entries) && InitialSize(ring.entries) == size
                && ring.entries[1..] == old(ring.entries)[First(old(ring.entries))..]
      ensures forall f :: f in checkpoints && f != frame ==>
                            f in old(checkpoints) && checkpoints[f] == old(checkpoints)[f]
      ensures HasInitial(old(ring.entries)) || (ok && frame == INITIAL_FRAME) ==> HasInitial(ring.entries)
    {
      if !exported { return false; }
      ghost var before := ring.entries;
      if frame == INITIAL_FRAME {
        ring.StoreInitial(size);
        assert ring.entries == [ring.entries[0]] + before[First(before)..];
        FramesAfterInitial(before, ring.entries);
      } else {
        if frame < 0 { return false; }
        StoredIsOk(before, ring.budget, frame, size);
        var stored := ring.Store(frame, size);
        if !stored { return false; }
      }
      checkpoints := checkpoints[frame := state];
      KeepWhatTheRingKept();
      return true;
    }

    /** Keep exactly what the ring kept. */
    method KeepWhatTheRingKept()
      requires ring.Valid() && Frames(ring.entries) <= checkpoints.Keys
      modifies this
      ensures checkpoints.Keys == Frames(ring.entries)
      ensures forall f :: f in checkpoints ==> f in old(checkpoints) && checkpoints[f] == old(checkpoints)[f]
    {
      var left := checkpoints.Keys;
      while left != {}
        invariant Frames(ring.entries) <= checkpoints.Keys
        invariant checkpoints.Keys <= Frames(ring.entries) + left
        invariant forall f :: f in checkpoints ==> f in old(checkpoints) && checkpoints[f] == old(checkpoints)[f]
        decreases left
      {
        ghost var some := SomeElement(left);
        assert some in left;
        var f :| f in left;
        left := left - {f};
        var kept := exists i :: 0 <= i < |ring.entries| && ring.entries[i].frame == f;
        if !kept { checkpoints := checkpoints - {f}; }
      }
    }
  }

  lemma FramesAfterInitial(before: seq<Entry>, after: seq<Entry>)
    requires HasInitial(after) && after[1..] == before[First(before)..]
    ensures Frames(after) == Frames(before) + {INITIAL_FRAME}
  {
    var first := First(before);
    assert forall k :: 0 <= k < |after| - 1 ==> after[1..][k] == after[1 + k];
    assert forall k :: 0 <= k < |before| - first ==> before[first..][k] == before[first + k];
    forall f | f in Frames(before) ensures f in Frames(after) {
      var i :| 0 <= i < |before| && before[i].frame == f;
      var j := if i < first then 0 else 1 + i - first;
      if i >= first { assert before[first..][i - first] == before[i]; }
      assert after[j].frame == f;
    }
    forall f | f in Frames(after) ensures f in Frames(before) + {INITIAL_FRAME} {
      var i :| 0 <= i < |after| && after[i].frame == f;
      if i > 0 {
        assert after[1..][i - 1] == after[i];
        assert before[first + i - 1].frame == f;
      }
    }
    assert after[0].frame in Frames(after);
  }
}
