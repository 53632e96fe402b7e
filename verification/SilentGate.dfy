/**
 The gate that keeps silent production out of the linear evidence
 (src/audio_qa_inspection.cpp), the intervals it declares, and the segment each forwarded PCM
 block belongs to (src/audio_qa_runtime_session.cpp).

 The gate's atomic counters are changed by one producer or by the session at a time; a run is
 any interleaving of those steps.
 */
module SilentGate {
  const PRODUCER_SLOTS: nat := 64

  datatype Fact = Fact(producer: nat, sequence: nat)

  datatype ExcludedInterval = ExcludedInterval(producer: nat, first: nat, last: nat)

  /** What the gate remembers of one producer's excluded facts; `last == 0` means none. */
  datatype Slot = Slot(first: nat, last: nat, unordered: bool)

  const EMPTY_SLOT := Slot(0, 0, false)

  function Exclude(slot: Slot, sequence: nat): Slot {
    if slot.last == 0 then slot.(first := sequence, last := sequence)
    else if sequence <= slot.last then slot.(last := sequence, unordered := true)
    else slot.(last := sequence)
  }

  predicate Declares(slot: Slot) {
    slot.last != 0 && !slot.unordered && slot.first != 0 && slot.first <= slot.last
  }

  predicate Tracked(producer: nat) { 1 <= producer <= PRODUCER_SLOTS }

  datatype Gate = Gate(silent: bool, slots: seq<Slot>, forwarded: seq<Fact>, excluded: nat)

  function EmptySlots(): (slots: seq<Slot>)
    ensures |slots| == PRODUCER_SLOTS && forall i :: 0 <= i < |slots| ==> slots[i] == EMPTY_SLOT
  {
    seq(PRODUCER_SLOTS, _ => EMPTY_SLOT)
  }

  function Received(g: Gate, f: Fact): Gate
    requires |g.slots| == PRODUCER_SLOTS
  {
    if !g.silent then g.(forwarded := g.forwarded + [f])
    else
      var counted := g.(excluded := g.excluded + 1);
      if Tracked(f.producer)
      then counted.(slots := g.slots[f.producer - 1 := Exclude(g.slots[f.producer - 1], f.sequence)])
      else counted
  }

  /** The intervals of the first n slots, in slot order. */
  function Intervals(slots: seq<Slot>, n: nat): seq<ExcludedInterval>
    requires n <= |slots|
  {
    if n == 0 then []
    else Intervals(slots, n - 1) +
         if Declares(slots[n - 1]) then [ExcludedInterval(n, slots[n - 1].first, slots[n - 1].last)] else []
  }

  class SilentProductionGate {
    var silent: bool
    const excludedFirst: array<nat>
    const excludedLast: array<nat>
    const excludedUnordered: array<bool>
    var excludedFacts: nat
    var observed: seq<Fact>

    ghost predicate Valid()
      reads this
    {
      && excludedFirst.Length == excludedLast.Length == excludedUnordered.Length == PRODUCER_SLOTS
      && excludedFirst != excludedLast
    }

    ghost function SlotAt(i: nat): Slot
      requires Valid() && i < PRODUCER_SLOTS
      reads this, excludedFirst, excludedLast, excludedUnordered
    {
      Slot(excludedFirst[i], excludedLast[i], excludedUnordered[i])
    }

    ghost function View(): (g: Gate)
      requires Valid()
      reads this, excludedFirst, excludedLast, excludedUnordered
      ensures |g.slots| == PRODUCER_SLOTS
      ensures forall i :: 0 <= i < PRODUCER_SLOTS ==> g.slots[i] == SlotAt(i)
    {
      Gate(silent,
           seq(PRODUCER_SLOTS, i requires 0 <= i < PRODUCER_SLOTS
                               reads this, excludedFirst, excludedLast, excludedUnordered => SlotAt(i)),
           observed, excludedFacts)
    }

    constructor ()
      ensures Valid() && View() == Gate(false, EmptySlots(), [], 0)
      ensures fresh(excludedFirst) && fresh(excludedLast) && fresh(excludedUnordered)
    {
      silent, excludedFacts, observed := false, 0, [];
      excludedFirst := new nat[PRODUCER_SLOTS](_ => 0);
      excludedLast := new nat[PRODUCER_SLOTS](_ => 0);
      excludedUnordered := new bool[PRODUCER_SLOTS](_ => false);
    }

    method SetSilent(value: bool)
      requires Valid()
      modifies this
      ensures Valid() && View() == old(View()).(silent := value)
    {
      silent := value;
    }

    method ReceiveFact(fact: Fact)
      requires Valid()
      modifies this, excludedFirst, excludedLast, excludedUnordered
      ensures Valid() && View() == Received(old(View()), fact)
    {
      if silent {
        excludedFacts := excludedFacts + 1;
        if fact.producer != 0 && fact.producer <= PRODUCER_SLOTS {
          var slot := fact.producer - 1;
          var last := excludedLast[slot];
          if last == 0 {
            excludedFirst[slot] := fact.sequence;
          } else if fact.sequence <= last {
            excludedUnordered[slot] := true;
          }
          excludedLast[slot] := fact.sequence;
        }
        assert View().slots == Received(old(View()), fact).slots;
        return;
      }
      observed := observed + [fact];
      assert View().slots == old(View()).slots;
    }

    method TakeExclusions() returns (result: seq<ExcludedInterval>)
      requires Valid()
      modifies excludedFirst, excludedLast, excludedUnordered
      ensures Valid() && result == Intervals(old(View()).slots, PRODUCER_SLOTS)
      ensures View() == old(View()).(slots := EmptySlots())
    {
      result := [];
      ghost var slots := View().slots;
      for slot := 0 to PRODUCER_SLOTS
        invariant forall i :: 0 <= i < slot ==>
                    excludedFirst[i] == 0 && excludedLast[i] == 0 && !excludedUnordered[i]
        invariant forall i :: slot <= i < PRODUCER_SLOTS ==>
                    slots[i] == Slot(excludedFirst[i], excludedLast[i], excludedUnordered[i])
        invariant result == Intervals(slots, slot)
      {
        var last, first, unordered := excludedLast[slot], excludedFirst[slot], excludedUnordered[slot];
        excludedLast[slot], excludedFirst[slot], excludedUnordered[slot] := 0, 0, false;
        if !(last == 0 || unordered || first == 0 || first > last) {
          result := result + [ExcludedInterval(slot + 1, first, last)];
        }
      }
      assert View().slots == EmptySlots();
    }
  }

  // ---------------------------------------------------------------------------------------
  // What a slot says about the facts it excluded.
  // ---------------------------------------------------------------------------------------

  function Summary(sequences: seq<nat>): Slot {
    if sequences == [] then EMPTY_SLOT
    else Exclude(Summary(sequences[..|sequences| - 1]), sequences[|sequences| - 1])
  }

  predicate Growing(sequences: seq<nat>) {
    forall i, j :: 0 <= i < j < |sequences| ==> sequences[i] < sequences[j]
  }

  /** For any numbering without 0: an interval is declared exactly when the excluded sequences
      grew strictly, and then it runs from the first to the last of them. */
  lemma {:induction false} DeclaredMeansGrowing(sequences: seq<nat>)
    requires forall i :: 0 <= i < |sequences| ==> sequences[i] != 0
    ensures Declares(Summary(sequences)) <==> sequences != [] && Growing(sequences)
    ensures sequences != [] ==>
              && Summary(sequences).first == sequences[0]
              && Summary(sequences).last == sequences[|sequences| - 1]
              && (Summary(sequences).unordered <==> !Growing(sequences))
  {
    if sequences != [] {
      var n := |sequences| - 1;
      var rest := sequences[..n];
      DeclaredMeansGrowing(rest);
      if rest != [] {
        if Growing(rest) && rest[n - 1] < sequences[n] {
          forall i, j | 0 <= i < j < |sequences| ensures sequences[i] < sequences[j] {
            if j < n { assert rest[i] < rest[j]; } else if i < n - 1 { assert rest[i] < rest[n - 1]; }
          }
        }
        if Growing(sequences) {
          forall i, j | 0 <= i < j < n ensures rest[i] < rest[j] { assert sequences[i] < sequences[j]; }
          assert sequences[n - 1] < sequences[n];
        }
        if Growing(sequences) { assert sequences[0] <= sequences[n]; }
      }
    }
  }

  // ---------------------------------------------------------------------------------------
  // Every run of the gate.
  // ---------------------------------------------------------------------------------------

  datatype Step = Emit(fact: Fact) | SetSilent(silent: bool) | Take

  /** The gate, what it declared so far, and what was emitted. */
  datatype World = World(gate: Gate, declared: seq<ExcludedInterval>, emitted: seq<Fact>)

  function Next(w: World, s: Step): World
    requires |w.gate.slots| == PRODUCER_SLOTS
  {
    match s
    case Emit(f) => World(Received(w.gate, f), w.declared, w.emitted + [f])
    case SetSilent(silent) => w.(gate := w.gate.(silent := silent))
    case Take => World(w.gate.(slots := EmptySlots()),
                       w.declared + Intervals(w.gate.slots, PRODUCER_SLOTS), w.emitted)
  }

  function After(steps: seq<Step>): (w: World)
    ensures |w.gate.slots| == PRODUCER_SLOTS
  {
    if steps == [] then World(Gate(false, EmptySlots(), [], 0), [], [])
    else Next(After(steps[..|steps| - 1]), steps[|steps| - 1])
  }

  /** The sequences of p excluded since the last take. */
  function ExcludedSince(steps: seq<Step>, p: nat): seq<nat> {
    if steps == [] then []
    else
      var n := |steps| - 1;
      var before := ExcludedSince(steps[..n], p);
      match steps[n]
      case Emit(f) => if f.producer == p && After(steps[..n]).gate.silent then before + [f.sequence] else before
      case SetSilent(_) => before
      case Take => []
  }

  /** Every fact is forwarded or counted as excluded. */
  lemma {:induction false} EveryFactCounts(steps: seq<Step>)
    ensures |After(steps).gate.forwarded| + After(steps).gate.excluded == |After(steps).emitted|
  {
    if steps != [] { EveryFactCounts(steps[..|steps| - 1]); }
  }

  /** A slot sums up exactly those sequences, whatever the other producers do. */
  lemma {:induction false} SlotIsSummary(steps: seq<Step>, p: nat)
    requires Tracked(p)
    ensures After(steps).gate.slots[p - 1] == Summary(ExcludedSince(steps, p))
  {
    if steps != [] {
      var n := |steps| - 1;
      SlotIsSummary(steps[..n], p);
      if steps[n].Emit? && steps[n].fact.producer == p && After(steps[..n]).gate.silent {
        var all := ExcludedSince(steps, p);
        assert all[..|all| - 1] == ExcludedSince(steps[..n], p);
      }
    }
  }

  /** Over every run with nonzero numbers, a take declares an interval for p exactly when the
      sequences excluded since the last take grew strictly, from its first to its last. */
  lemma TakeDeclaresGrowth(steps: seq<Step>, p: nat)
    requires Tracked(p)
    requires forall i :: 0 <= i < |steps| && steps[i].Emit? ==> steps[i].fact.sequence != 0
    ensures var excluded := ExcludedSince(steps, p);
            var slot := After(steps).gate.slots[p - 1];
            && (Declares(slot) <==> excluded != [] && Growing(excluded))
            && (Declares(slot) ==> slot.first == excluded[0] && slot.last == excluded[|excluded| - 1])
  {
    SlotIsSummary(steps, p);
    ExcludedNonzero(steps, p);
    DeclaredMeansGrowing(ExcludedSince(steps, p));
  }

  lemma {:induction false} ExcludedNonzero(steps: seq<Step>, p: nat)
    requires forall i :: 0 <= i < |steps| && steps[i].Emit? ==> steps[i].fact.sequence != 0
    ensures forall i :: 0 <= i < |ExcludedSince(steps, p)| ==> ExcludedSince(steps, p)[i] != 0
  {
    if steps != [] {
      var n := |steps| - 1;
      assert forall i :: 0 <= i < n ==> steps[..n][i] == steps[i];
      ExcludedNonzero(steps[..n], p);
    }
  }

  /** How many facts producer p has emitted. */
  function Emitted(emitted: seq<Fact>, p: nat): nat {
    if emitted == [] then 0
    else Emitted(emitted[..|emitted| - 1], p) + if emitted[|emitted| - 1].producer == p then 1 else 0
  }

  /** Producer p numbers its facts 1, 2, 3, …; silence only ends with its exclusions taken. */
  predicate Allowed(w: World, s: Step, p: nat)
    requires |w.gate.slots| == PRODUCER_SLOTS && Tracked(p)
  {
    match s
    case Emit(f) => f.producer == p ==> f.sequence == Emitted(w.emitted, p) + 1
    case SetSilent(silent) => !silent ==> w.gate.slots[p - 1].last == 0
    case Take => true
  }

  predicate Quiescent(steps: seq<Step>, p: nat)
    requires Tracked(p)
  {
    forall i :: 0 <= i < |steps| ==> Allowed(After(steps[..i]), steps[i], p)
  }

  predicate Within(s: nat, i: ExcludedInterval, p: nat) { i.producer == p && i.first <= s <= i.last }

  predicate Declared(w: World, p: nat, s: nat) {
    exists i :: 0 <= i < |w.declared| && Within(s, w.declared[i], p)
  }

  predicate Forwarded(w: World, p: nat, s: nat) { Fact(p, s) in w.gate.forwarded }

  predicate Held(slot: Slot, s: nat) { slot.last != 0 && slot.first <= s <= slot.last }

  /** The slot of p is empty, or holds a run of numbers up to the last one emitted. */
  predicate SlotOk(w: World, p: nat, slot: Slot) {
    if slot.last == 0 then slot == EMPTY_SLOT
    else w.gate.silent && !slot.unordered && 1 <= slot.first <= slot.last == Emitted(w.emitted, p)
  }

  /** Number s of p is in exactly one place if it was emitted, and in none otherwise. */
  predicate Placed(w: World, p: nat, slot: Slot, s: nat) {
    && (1 <= s <= Emitted(w.emitted, p) <==> Forwarded(w, p, s) || Declared(w, p, s) || Held(slot, s))
    && !(Forwarded(w, p, s) && Declared(w, p, s))
    && !(Forwarded(w, p, s) && Held(slot, s))
    && !(Declared(w, p, s) && Held(slot, s))
  }

  ghost predicate AllPlaced(w: World, p: nat, slot: Slot) {
    forall s: nat :: Placed(w, p, slot, s)
  }

  /** Every fact of p is in exactly one place: forwarded, declared, or held for the next take. */
  ghost predicate Partitioned(w: World, p: nat)
    requires |w.gate.slots| == PRODUCER_SLOTS && Tracked(p)
  {
    SlotOk(w, p, w.gate.slots[p - 1]) && AllPlaced(w, p, w.gate.slots[p - 1])
  }

  lemma EmitKeeps(w: World, f: Fact, p: nat)
    requires |w.gate.slots| == PRODUCER_SLOTS && Tracked(p)
    requires Partitioned(w, p) && Allowed(w, Emit(f), p)
    ensures Partitioned(Next(w, Emit(f)), p)
  {
    var after := Next(w, Emit(f));
    assert after.emitted[..|w.emitted|] == w.emitted;
    var slot := after.gate.slots[p - 1];
    forall s: nat ensures Placed(after, p, slot, s) {
      assert Placed(w, p, w.gate.slots[p - 1], s);
      assert Declared(after, p, s) <==> Declared(w, p, s);
    }
  }

  function IntervalOf(slots: seq<Slot>, p: nat): ExcludedInterval
    requires 1 <= p <= |slots|
  {
    ExcludedInterval(p, slots[p - 1].first, slots[p - 1].last)
  }

  /** Each slot that declares is among the intervals. */
  lemma {:induction false} SlotIsDeclared(slots: seq<Slot>, n: nat, p: nat) returns (i: nat)
    requires 1 <= p <= n <= |slots| && Declares(slots[p - 1])
    ensures i < |Intervals(slots, n)| && Intervals(slots, n)[i] == IntervalOf(slots, p)
  {
    if p < n {
      i := SlotIsDeclared(slots, n - 1, p);
    } else {
      i := |Intervals(slots, n - 1)|;
    }
  }

  /** And each interval is that of a slot. */
  lemma {:induction false} DeclaredIsSlot(slots: seq<Slot>, n: nat, i: nat)
    requires n <= |slots| && i < |Intervals(slots, n)|
    ensures 1 <= Intervals(slots, n)[i].producer <= n
    ensures Intervals(slots, n)[i] == IntervalOf(slots, Intervals(slots, n)[i].producer)
    ensures Declares(slots[Intervals(slots, n)[i].producer - 1])
  {
    if i < |Intervals(slots, n - 1)| { DeclaredIsSlot(slots, n - 1, i); }
  }

  /** A take moves what p held to what is declared, and nothing else. */
  lemma TakenIsHeld(w: World, p: nat, s: nat)
    requires |w.gate.slots| == PRODUCER_SLOTS && Tracked(p) && SlotOk(w, p, w.gate.slots[p - 1])
    ensures Declared(Next(w, Take), p, s) <==> Declared(w, p, s) || Held(w.gate.slots[p - 1], s)
  {
    var slots, after := w.gate.slots, Next(w, Take);
    var taken := Intervals(slots, PRODUCER_SLOTS);
    if Declared(w, p, s) {
      var i :| 0 <= i < |w.declared| && Within(s, w.declared[i], p);
      assert Within(s, after.declared[i], p);
    }
    if Held(slots[p - 1], s) {
      var i := SlotIsDeclared(slots, PRODUCER_SLOTS, p);
      assert Within(s, after.declared[|w.declared| + i], p);
    }
    if Declared(after, p, s) {
      var i :| 0 <= i < |after.declared| && Within(s, after.declared[i], p);
      if i < |w.declared| {
        assert Within(s, w.declared[i], p);
      } else {
        DeclaredIsSlot(slots, PRODUCER_SLOTS, i - |w.declared|);
        assert after.declared[i] == IntervalOf(slots, p);
      }
    }
  }

  lemma TakeKeeps(w: World, p: nat)
    requires |w.gate.slots| == PRODUCER_SLOTS && Tracked(p) && Partitioned(w, p)
    ensures Partitioned(Next(w, Take), p)
  {
    var after := Next(w, Take);
    var slot := w.gate.slots[p - 1];
    forall s: nat ensures Placed(after, p, EMPTY_SLOT, s) {
      assert Placed(w, p, slot, s);
      TakenIsHeld(w, p, s);
    }
  }

  lemma {:induction false} RunPartitions(steps: seq<Step>, p: nat)
    requires Tracked(p) && Quiescent(steps, p)
    ensures Partitioned(After(steps), p)
  {
    if steps != [] {
      var n := |steps| - 1;
      var before := steps[..n];
      forall i | 0 <= i < n ensures Allowed(After(before[..i]), before[i], p) {
        assert before[..i] == steps[..i];
        assert Allowed(After(steps[..i]), steps[i], p);
      }
      RunPartitions(before, p);
      assert Allowed(After(steps[..n]), steps[n], p);
      match steps[n]
      case Emit(f) => EmitKeeps(After(before), f, p);
      case SetSilent(silent) =>
        var slot := After(steps).gate.slots[p - 1];
        forall s: nat ensures Placed(After(steps), p, slot, s) {
          assert Placed(After(before), p, slot, s);
        }
      case Take => TakeKeeps(After(before), p);
    }
  }

  /** When every exclusion has been taken, the forwarded facts and the declared intervals split
      the facts a producer emitted: each number 1..n is in exactly one of the two. */
  lemma ForwardedAndDeclaredPartition(steps: seq<Step>, p: nat)
    requires Tracked(p) && Quiescent(steps, p) && After(steps).gate.slots[p - 1].last == 0
    ensures forall s: nat ::
              1 <= s <= Emitted(After(steps).emitted, p) <==>
              Forwarded(After(steps), p, s) != Declared(After(steps), p, s)
    ensures forall s: nat :: !(Forwarded(After(steps), p, s) && Declared(After(steps), p, s))
  {
    RunPartitions(steps, p);
    forall s: nat
      ensures 1 <= s <= Emitted(After(steps).emitted, p) <==>
              Forwarded(After(steps), p, s) != Declared(After(steps), p, s)
      ensures !(Forwarded(After(steps), p, s) && Declared(After(steps), p, s))
    {
      assert Placed(After(steps), p, After(steps).gate.slots[p - 1], s);
    }
  }

  // ---------------------------------------------------------------------------------------
  // The segment of each forwarded PCM block.
  // ---------------------------------------------------------------------------------------

  /** The sink's `while` before a block: the segments that begin at or before it are open. */
  function Opened(starts: seq<nat>, segment: nat, consumed: nat): (seq<nat>, nat) {
    if starts != [] && consumed >= starts[0] then Opened(starts[1..], segment + 1, consumed)
    else (starts, segment)
  }

  /** A PCM block reaches the gate; the sink consumes the next forwarded block; a resume reads
      the forwarded count and opens a segment there. */
  datatype PcmStep = BlockArrives | SinkConsumes | Resume | Silence(silent: bool)

  /** `resumesBefore[i]`: the resumes that happened before block i was forwarded. */
  datatype Line = Line(
    silent: bool, forwarded: nat, excluded: nat,
    starts: seq<nat>, consumed: nat, segment: nat, given: seq<nat>,
    resumes: seq<nat>, resumesBefore: seq<nat>)

  function LineNext(l: Line, s: PcmStep): Line {
    match s
    case BlockArrives =>
      if l.silent then l.(excluded := l.excluded + 1)
      else l.(forwarded := l.forwarded + 1, resumesBefore := l.resumesBefore + [|l.resumes|])
    case SinkConsumes =>
      if l.consumed >= l.forwarded then l
      else
        var pair := Opened(l.starts, l.segment, l.consumed);
        l.(starts := pair.0, segment := pair.1, consumed := l.consumed + 1,
           given := l.given + [pair.1])
    case Resume => l.(starts := l.starts + [l.forwarded], resumes := l.resumes + [l.forwarded])
    case Silence(silent) => l.(silent := silent)
  }

  function LineAfter(steps: seq<PcmStep>): Line {
    if steps == [] then Line(false, 0, 0, [], 0, 0, [], [], [])
    else LineNext(LineAfter(steps[..|steps| - 1]), steps[|steps| - 1])
  }

  /** Block i has exactly the resumes at or below i before it. */
  predicate Before(resumes: seq<nat>, i: nat, count: nat) {
    && count <= |resumes|
    && (forall k :: 0 <= k < count ==> resumes[k] <= i)
    && (forall k :: count <= k < |resumes| ==> resumes[k] > i)
  }

  predicate LineInv(l: Line) {
    && |l.resumesBefore| == l.forwarded && l.consumed <= l.forwarded
    && l.segment <= |l.resumes| && l.starts == l.resumes[l.segment..]
    && (forall k :: 0 <= k < |l.resumes| ==> l.resumes[k] <= l.forwarded)
    && (forall i :: 0 <= i < l.forwarded ==> Before(l.resumes, i, l.resumesBefore[i]))
    && (forall k :: 0 <= k < l.segment ==> l.resumes[k] <= l.consumed)
    && l.given == l.resumesBefore[..l.consumed]
  }

  lemma {:induction false} OpenedIsCount(resumes: seq<nat>, segment: nat, i: nat, count: nat)
    requires segment <= count && Before(resumes, i, count)
    ensures Opened(resumes[segment..], segment, i) == (resumes[count..], count)
    decreases count - segment
  {
    if segment < count {
      assert resumes[segment..][1..] == resumes[segment + 1..];
      OpenedIsCount(resumes, segment + 1, i, count);
    }
  }

  lemma SegmentBelow(resumes: seq<nat>, segment: nat, i: nat, count: nat)
    requires segment <= |resumes| && Before(resumes, i, count)
    requires forall k :: 0 <= k < segment ==> resumes[k] <= i
    ensures segment <= count
  {
    if count < |resumes| { assert resumes[count] > i; }
  }

  lemma LineStep(l: Line, s: PcmStep)
    requires LineInv(l)
    ensures LineInv(LineNext(l, s))
  {
    var next := LineNext(l, s);
    match s
    case BlockArrives =>
      if !l.silent {
        assert Before(l.resumes, l.forwarded, |l.resumes|);
        assert next.resumesBefore[..l.consumed] == l.resumesBefore[..l.consumed];
      }
    case SinkConsumes =>
      if l.consumed < l.forwarded {
        var count := l.resumesBefore[l.consumed];
        assert Before(l.resumes, l.consumed, count);
        SegmentBelow(l.resumes, l.segment, l.consumed, count);
        OpenedIsCount(l.resumes, l.segment, l.consumed, count);
      }
    case Resume =>
      assert next.starts == next.resumes[l.segment..];
      forall i | 0 <= i < l.forwarded ensures Before(next.resumes, i, next.resumesBefore[i]) {
        assert Before(l.resumes, i, l.resumesBefore[i]);
      }
    case Silence(_) =>
  }

  lemma {:induction false} LineRun(steps: seq<PcmStep>)
    ensures LineInv(LineAfter(steps))
  {
    if steps != [] {
      LineRun(steps[..|steps| - 1]);
      LineStep(LineAfter(steps[..|steps| - 1]), steps[|steps| - 1]);
    }
  }

  /** In every interleaving, the segment the sink gives to a PCM block is the number of resumes
      that happened before the gate forwarded it. */
  lemma SegmentIsResumesBefore(steps: seq<PcmStep>, i: nat)
    requires i < LineAfter(steps).consumed
    ensures i < |LineAfter(steps).given| && i < |LineAfter(steps).resumesBefore|
    ensures LineAfter(steps).given[i] == LineAfter(steps).resumesBefore[i]
  {
    LineRun(steps);
  }
}
