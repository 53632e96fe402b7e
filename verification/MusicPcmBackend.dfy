/**
 The PCM backend of the music (src/music_pcm_backend.h): deliveries are stopped, the queue is
 drained, the drain confirmed and a new generation published, or the stop rolled back.
 */
module MusicPcmBackend {

  /** What became of samples that left the queue together. */
  datatype Batch<T> = Consumed(generation: nat, samples: seq<T>) | Discarded(generation: nat, samples: seq<T>)

  datatype Output<T> = Output(generation: nat, firstFrame: nat, samples: seq<T>)

  function Tagged<T>(generation: nat, samples: seq<T>): (r: seq<(nat, T)>)
    ensures |r| == |samples| && forall i :: 0 <= i < |r| ==> r[i] == (generation, samples[i])
  {
    seq(|samples|, i requires 0 <= i < |samples| => (generation, samples[i]))
  }

  /** All the samples that left, in order, each with its generation. */
  function Left<T>(ledger: seq<Batch<T>>): seq<(nat, T)> {
    if ledger == [] then []
    else Left(ledger[..|ledger| - 1]) + Tagged(ledger[|ledger| - 1].generation, ledger[|ledger| - 1].samples)
  }

  function DiscardedCount<T>(ledger: seq<Batch<T>>): nat {
    if ledger == [] then 0
    else
      var last := ledger[|ledger| - 1];
      DiscardedCount(ledger[..|ledger| - 1]) + if last.Discarded? then |last.samples| else 0
  }

  function ConsumedCount<T>(ledger: seq<Batch<T>>): nat {
    if ledger == [] then 0
    else
      var last := ledger[|ledger| - 1];
      ConsumedCount(ledger[..|ledger| - 1]) + if last.Consumed? then |last.samples| else 0
  }

  lemma OneMoreBatch<T>(ledger: seq<Batch<T>>, b: Batch<T>)
    ensures Left(ledger + [b]) == Left(ledger) + Tagged(b.generation, b.samples)
    ensures DiscardedCount(ledger + [b]) == DiscardedCount(ledger) + if b.Discarded? then |b.samples| else 0
    ensures ConsumedCount(ledger + [b]) == ConsumedCount(ledger) + if b.Consumed? then |b.samples| else 0
  {
    assert (ledger + [b])[..|ledger|] == ledger;
  }

  /** Every sample that left was consumed or discarded, never both. */
  lemma {:induction false} LeftIsConsumedOrDiscarded<T>(ledger: seq<Batch<T>>)
    ensures |Left(ledger)| == ConsumedCount(ledger) + DiscardedCount(ledger)
  {
    if ledger != [] { LeftIsConsumedOrDiscarded(ledger[..|ledger| - 1]); }
  }

  /** Generations never decrease along the samples, and none is above the last. */
  ghost predicate Ordered<T>(tagged: seq<(nat, T)>, last: nat) {
    && (forall i, j :: 0 <= i < j < |tagged| ==> tagged[i].0 <= tagged[j].0)
    && (forall i :: 0 <= i < |tagged| ==> 0 < tagged[i].0 <= last)
  }

  lemma OrderedExtends<T>(tagged: seq<(nat, T)>, last: nat, generation: nat, samples: seq<T>)
    requires Ordered(tagged, last) && 0 < generation && last <= generation
    ensures Ordered(tagged + Tagged(generation, samples), generation)
  {
  }

  lemma TaggedAppend<T>(generation: nat, queue: seq<T>, samples: seq<T>)
    ensures Tagged(generation, queue + samples) == Tagged(generation, queue) + Tagged(generation, samples)
  {
  }

  class MusicPcmBackend<T> {
    var queue: seq<T>
    var activeGeneration: nat
    var requestFrame: nat
    var confirmationFrame: nat
    var firstOutputFrame: nat
    var discardedFrames: nat
    var deliveriesStopped: bool
    var drainPerformed: bool
    var confirmed: bool
    /** Every sample ever accepted, with the generation it was enqueued under. */
    ghost var enqueued: seq<(nat, T)>
    ghost var ledger: seq<Batch<T>>

    /** What was enqueued is what left followed by what is queued, in order; the queue is of the
        active generation alone. */
    ghost predicate Accounted()
      reads this`enqueued, this`ledger, this`activeGeneration, this`queue, this`discardedFrames
    {
      && enqueued == Left(ledger) + Tagged(activeGeneration, queue)
      && discardedFrames == DiscardedCount(ledger)
    }

    /** The queue is empty before the first generation and once drained. */
    ghost predicate StagesOk()
      reads this`queue, this`activeGeneration, this`deliveriesStopped, this`drainPerformed, this`confirmed,
            this`requestFrame, this`confirmationFrame
    {
      && (activeGeneration == 0 ==> queue == [])
      && (drainPerformed ==> deliveriesStopped && queue == [])
      && (confirmed ==> drainPerformed && confirmationFrame >= requestFrame)
    }

    ghost predicate Valid()
      reads this
    {
      Accounted() && StagesOk() && Ordered(enqueued, activeGeneration)
    }

    constructor ()
      ensures Valid() && enqueued == [] && ledger == [] && !deliveriesStopped
    {
      queue, activeGeneration, requestFrame, confirmationFrame := [], 0, 0, 0;
      firstOutputFrame, discardedFrames := 0, 0;
      deliveriesStopped, drainPerformed, confirmed := false, false, false;
      enqueued, ledger := [], [];
    }

    method Enqueue(generation: nat, samples: seq<T>) returns (ok: bool)
      requires Valid()
      modifies this`queue, this`activeGeneration, this`enqueued
      ensures Valid() && activeGeneration >= old(activeGeneration)
      ensures ok <==> generation != 0 && samples != [] && !deliveriesStopped
                      && (old(activeGeneration) == 0 || generation == old(activeGeneration))
      ensures ok ==> activeGeneration == generation && queue == old(queue) + samples
                     && enqueued == old(enqueued) + Tagged(generation, samples)
      ensures !ok ==> unchanged(this)
    {
      if || generation == 0 || samples == [] || deliveriesStopped
         || (activeGeneration != 0 && generation != activeGeneration)
      {
        return false;
      }
      TaggedAppend(generation, queue, samples);
      OrderedExtends(enqueued, activeGeneration, generation, samples);
      assert Tagged(activeGeneration, queue) == Tagged(generation, queue);
      activeGeneration := generation;
      queue := queue + samples;
      enqueued := enqueued + Tagged(generation, samples);
      return true;
    }

    method StopDeliveries(frame: nat) returns (ok: bool)
      requires Valid()
      modifies this`deliveriesStopped, this`requestFrame
      ensures Valid() && (ok <==> !old(deliveriesStopped) && frame != 0)
      ensures ok ==> deliveriesStopped && requestFrame == frame
      ensures !ok ==> unchanged(this)
    {
      if deliveriesStopped || frame == 0 { return false; }
      deliveriesStopped := true;
      requestFrame := frame;
      return true;
    }

    method InvalidateAndDrain(generation: nat) returns (ok: bool)
      requires Valid()
      modifies this`queue, this`discardedFrames, this`drainPerformed, this`ledger
      ensures Valid() && (ok <==> deliveriesStopped && generation == activeGeneration)
      ensures ok ==> queue == [] && drainPerformed && ledger == old(ledger) + [Discarded(activeGeneration, old(queue))]
      ensures !ok ==> unchanged(this)
    {
      if !deliveriesStopped || generation != activeGeneration { return false; }
      OneMoreBatch(ledger, Discarded(activeGeneration, queue));
      ledger := ledger + [Discarded(activeGeneration, queue)];
      discardedFrames := discardedFrames + |queue|;
      queue := [];
      drainPerformed := true;
      return true;
    }

    method ConfirmDrained(frame: nat) returns (ok: bool)
      requires Valid()
      modifies this`confirmed, this`confirmationFrame
      ensures Valid() && (ok <==> drainPerformed && frame >= requestFrame)
      ensures ok ==> confirmed && confirmationFrame == frame
      ensures !ok ==> unchanged(this)
    {
      if !deliveriesStopped || !drainPerformed || queue != [] || frame < requestFrame { return false; }
      confirmed := true;
      confirmationFrame := frame;
      return true;
    }

    /** A new generation starts with nothing queued, at or after the frame of the stop. */
    method PublishGeneration(generation: nat, boundary: nat) returns (ok: bool)
      requires Valid()
      modifies this`activeGeneration, this`firstOutputFrame, this`deliveriesStopped, this`confirmed, this`drainPerformed
      ensures Valid() && (ok <==> old(confirmed) && generation > old(activeGeneration) && boundary >= confirmationFrame)
      ensures ok ==> activeGeneration == generation && queue == [] && firstOutputFrame == boundary >= requestFrame
                     && !deliveriesStopped && !confirmed && !drainPerformed
      ensures !ok ==> unchanged(this)
    {
      if !confirmed || generation <= activeGeneration || boundary < confirmationFrame { return false; }
      activeGeneration := generation;
      firstOutputFrame := boundary;
      deliveriesStopped, confirmed, drainPerformed := false, false, false;
      return true;
    }

    method Rollback(generation: nat) returns (ok: bool)
      requires Valid()
      modifies this`deliveriesStopped, this`confirmed, this`drainPerformed
      ensures Valid() && (ok <==> old(deliveriesStopped) && generation == activeGeneration)
      ensures ok ==> !deliveriesStopped && !confirmed && !drainPerformed
      ensures !ok ==> unchanged(this)
    {
      if !deliveriesStopped || generation != activeGeneration { return false; }
      deliveriesStopped, confirmed, drainPerformed := false, false, false;
      return true;
    }

    /** While deliveries are stopped nothing comes out; otherwise the whole queue does, all of
        it of the generation the output names. */
    method Consume() returns (output: Output<T>)
      requires Valid()
      modifies this`queue, this`ledger
      ensures Valid()
      ensures deliveriesStopped ==> output == Output(0, 0, []) && queue == old(queue) && ledger == old(ledger)
      ensures !deliveriesStopped ==>
                && output == Output(activeGeneration, firstOutputFrame, old(queue)) && queue == []
                && ledger == old(ledger) + [Consumed(output.generation, output.samples)]
    {
      if deliveriesStopped { return Output(0, 0, []); }
      output := Output(activeGeneration, firstOutputFrame, queue);
      OneMoreBatch(ledger, Consumed(activeGeneration, queue));
      ledger := ledger + [Consumed(activeGeneration, queue)];
      queue := [];
    }

    /** Samples enqueued are samples consumed, discarded or still queued. */
    lemma Conservation()
      requires Valid()
      ensures |enqueued| == ConsumedCount(ledger) + discardedFrames + |queue|
    {
      LeftIsConsumedOrDiscarded(ledger);
    }
  }

  datatype Call<T> =
    | EnqueueCall(generation: nat, samples: seq<T>)
    | StopCall(frame: nat)
    | DrainCall(generation: nat)
    | ConfirmCall(frame: nat)
    | PublishCall(generation: nat, boundary: nat)
    | RollbackCall(generation: nat)
    | ConsumeCall

  /** The outputs a ledger accounts for. */
  function OutputsOf<T>(ledger: seq<Batch<T>>): seq<(nat, seq<T>)> {
    if ledger == [] then []
    else
      var last := ledger[|ledger| - 1];
      OutputsOf(ledger[..|ledger| - 1]) + if last.Consumed? then [(last.generation, last.samples)] else []
  }

  lemma OneMoreOutput<T>(ledger: seq<Batch<T>>, b: Batch<T>)
    ensures OutputsOf(ledger + [b]) == OutputsOf(ledger) + if b.Consumed? then [(b.generation, b.samples)] else []
  {
    assert (ledger + [b])[..|ledger|] == ledger;
  }

  /** Over every run of calls from a new backend: the outputs, the discarded batches and the
      queue split the accepted samples in order, each output under the generation its samples
      were enqueued with, and generations never decrease. */
  method Run<T>(backend: MusicPcmBackend<T>, calls: seq<Call<T>>) returns (outputs: seq<(nat, seq<T>)>)
    requires backend.Valid() && backend.enqueued == [] && backend.ledger == []
    modifies backend
    ensures backend.Valid()
    ensures outputs == OutputsOf(backend.ledger)
    ensures backend.enqueued == Left(backend.ledger) + Tagged(backend.activeGeneration, backend.queue)
    ensures forall i, j :: 0 <= i < j < |backend.enqueued| ==> backend.enqueued[i].0 <= backend.enqueued[j].0
    ensures |backend.enqueued| == ConsumedCount(backend.ledger) + backend.discardedFrames + |backend.queue|
  {
    outputs := [];
    for i := 0 to |calls|
      invariant backend.Valid() && outputs == OutputsOf(backend.ledger)
    {
      var more := Answer(backend, calls[i]);
      outputs := outputs + more;
    }
    backend.Conservation();
  }

  /** Answers one call; `outputs` is what it consumed, if it did. */
  method Answer<T>(backend: MusicPcmBackend<T>, call: Call<T>) returns (outputs: seq<(nat, seq<T>)>)
    requires backend.Valid()
    modifies backend
    ensures backend.Valid() && OutputsOf(backend.ledger) == OutputsOf(old(backend.ledger)) + outputs
  {
    outputs := [];
    if call.ConsumeCall? {
      outputs := AnswerConsume(backend);
    } else if call.DrainCall? {
      OneMoreOutput(backend.ledger, Discarded(backend.activeGeneration, backend.queue));
      var _ := backend.InvalidateAndDrain(call.generation);
    } else {
      AnswerOther(backend, call);
    }
  }

  method AnswerConsume<T>(backend: MusicPcmBackend<T>) returns (outputs: seq<(nat, seq<T>)>)
    requires backend.Valid()
    modifies backend
    ensures backend.Valid() && OutputsOf(backend.ledger) == OutputsOf(old(backend.ledger)) + outputs
  {
    var stopped := backend.deliveriesStopped;
    OneMoreOutput(backend.ledger, Consumed(backend.activeGeneration, backend.queue));
    var output := backend.Consume();
    outputs := if stopped then [] else [(output.generation, output.samples)];
  }

  method AnswerOther<T>(backend: MusicPcmBackend<T>, call: Call<T>)
    requires backend.Valid() && !call.ConsumeCall? && !call.DrainCall?
    modifies backend
    ensures backend.Valid() && backend.ledger == old(backend.ledger)
  {
    match call
    case EnqueueCall(generation, samples) => var _ := backend.Enqueue(generation, samples);
    case StopCall(frame) => var _ := backend.StopDeliveries(frame);
    case ConfirmCall(frame) => var _ := backend.ConfirmDrained(frame);
    case PublishCall(generation, boundary) => var _ := backend.PublishGeneration(generation, boundary);
    case RollbackCall(generation) => var _ := backend.Rollback(generation);
  }
}
