/**
 A chunk of captured PCM (tools/audio_qa/audio_chunk.cpp): when it is well formed, what it
 means sample by sample, and how chunks merge and are cut.
 */
module AudioChunks {
  import opened Arithmetic
  import opened Bytes
  import opened Collections
  import opened Options

  const MAX_IDENTITY_BYTES: nat := 256
  const MAX_FACT_CAUSES: nat := 256
  const MAX_DISCONTINUITIES: nat := 256
  const MAX_PAYLOAD_BYTES: nat := 256 * 1024
  const PCM_BATCH_BYTES: nat := 128 * 1024

  datatype PcmFormat = S16le | S24le | S32le | F32le

  datatype AudioFormat = AudioFormat(pcm: PcmFormat, sampleRate: nat, channels: nat)

  datatype Range = Range(timeline: string, rate: nat, begin: nat, end: nat)

  datatype Availability = Available | NotApplicable | Unavailable

  datatype Field<T> = Field(availability: Availability, value: Option<T>, reason: string)

  datatype FactId = FactId(runId: string, producer: string, sequence: nat)

  datatype DiscontinuityKind = InsertedSilence | DiscardedAudio

  datatype Discontinuity =
    Discontinuity(kind: DiscontinuityKind, affected: Range, output: Field<Range>, causes: seq<FactId>)

  datatype Durability = Pending | Confirmed

  datatype Chunk = Chunk(
    runId: string,
    capturePoint: string,
    producerSequence: nat,
    format: AudioFormat,
    range: Range,
    bytes: seq<byte>,
    sha256: Field<seq<byte>>,
    durability: Durability,
    checkpointId: Field<string>,
    causes: seq<FactId>,
    discontinuities: seq<Discontinuity>,
    segment: nat)

  predicate Identifier(s: string) { 0 < |s| <= MAX_IDENTITY_BYTES }

  predicate Consistent<T(==)>(f: Field<T>) {
    |f.reason| <= MAX_IDENTITY_BYTES && (f.value.Some? <==> f.availability.Available?)
  }

  predicate WellFormedRange(r: Range) { Identifier(r.timeline) && r.rate > 0 && r.begin <= r.end }

  function Width(pcm: PcmFormat): nat {
    match pcm
    case S16le => 2
    case S24le => 3
    case _ => 4
  }

  function FrameBytes(format: AudioFormat): nat { Width(format.pcm) * format.channels }

  function ExpectedPayloadBytes(format: AudioFormat, frames: nat): Option<nat> {
    if format.sampleRate == 0 || format.sampleRate > 192000 || format.channels == 0 || format.channels > 8 then None
    else if frames > MAX_PAYLOAD_BYTES / FrameBytes(format) then None
    else Some(frames * FrameBytes(format))
  }

  predicate CauseOk(runId: string, id: FactId) {
    id.runId == runId && Identifier(id.producer) && id.sequence != 0
  }

  predicate CausesOk(runId: string, causes: seq<FactId>) {
    && |causes| <= MAX_FACT_CAUSES
    && (forall i :: 0 <= i < |causes| ==> CauseOk(runId, causes[i]))
    && (forall i, j :: 0 <= i < j < |causes| ==> causes[i] != causes[j])
  }

  predicate DiscontinuityOk(runId: string, d: Discontinuity) {
    && WellFormedRange(d.affected)
    && Consistent(d.output)
    && (d.output.value.Some? ==> WellFormedRange(d.output.value.value))
    && |d.causes| <= MAX_FACT_CAUSES
    && (forall i :: 0 <= i < |d.causes| ==> CauseOk(runId, d.causes[i]))
  }

  /** Everything but the causes and the discontinuities. */
  predicate HeaderOk(c: Chunk) {
    && Identifier(c.runId) && Identifier(c.capturePoint) && c.producerSequence != 0
    && WellFormedRange(c.range) && c.range.rate == c.format.sampleRate
    && Consistent(c.sha256) && Consistent(c.checkpointId)
    && ExpectedPayloadBytes(c.format, c.range.end - c.range.begin) == Some(|c.bytes|)
    && (c.checkpointId.value.Some? ==> Identifier(c.checkpointId.value.value))
    && (c.durability.Confirmed? ==> c.sha256.value.Some? && c.checkpointId.value.Some?)
  }

  predicate WellFormed(c: Chunk) {
    && HeaderOk(c)
    && CausesOk(c.runId, c.causes)
    && |c.discontinuities| <= MAX_DISCONTINUITIES
    && forall i :: 0 <= i < |c.discontinuities| ==> DiscontinuityOk(c.runId, c.discontinuities[i])
  }

  /** The loops of `well_formed`. */
  method CheckCauses(runId: string, causes: seq<FactId>) returns (ok: bool)
    requires |causes| <= MAX_FACT_CAUSES
    ensures ok <==> CausesOk(runId, causes)
  {
    for i := 0 to |causes|
      invariant CausesOk(runId, causes[..i])
    {
      if !CauseOk(runId, causes[i]) { return false; }
      for previous := 0 to i
        invariant forall k :: 0 <= k < previous ==> causes[k] != causes[i]
      {
        if causes[previous] == causes[i] { return false; }
      }
    }
    return true;
  }

  method CheckWellFormed(c: Chunk) returns (ok: bool)
    ensures ok <==> WellFormed(c)
  {
    if !HeaderOk(c) || |c.causes| > MAX_FACT_CAUSES || |c.discontinuities| > MAX_DISCONTINUITIES { return false; }
    var causes := CheckCauses(c.runId, c.causes);
    if !causes { return false; }
    for i := 0 to |c.discontinuities|
      invariant forall k :: 0 <= k < i ==> DiscontinuityOk(c.runId, c.discontinuities[k])
    {
      if !DiscontinuityOk(c.runId, c.discontinuities[i]) { return false; }
    }
    return true;
  }

  // ---------------------------------------------------------------------------------------
  // What PCM means: its sample frames, each with its place.
  // ---------------------------------------------------------------------------------------

  datatype Sample = Sample(
    runId: string, capturePoint: string, format: AudioFormat, timeline: string, segment: nat,
    at: nat, bytes: seq<byte>)

  function Length(c: Chunk): nat
    requires WellFormedRange(c.range)
  {
    c.range.end - c.range.begin
  }

  lemma PayloadSize(c: Chunk)
    requires HeaderOk(c)
    ensures |c.bytes| == Length(c) * FrameBytes(c.format)
    ensures 0 < FrameBytes(c.format) && |c.bytes| <= MAX_PAYLOAD_BYTES
  {
    var fb := FrameBytes(c.format);
    MulMonotone(1, c.format.channels, Width(c.format.pcm));
    MulMonotone(Length(c), MAX_PAYLOAD_BYTES / fb, fb);
  }

  /** Frame i of n lies inside the bytes of n frames. */
  lemma FrameInside(i: nat, n: nat, fb: nat)
    requires i < n
    ensures 0 <= i * fb <= (i + 1) * fb <= n * fb
  {
    MulMonotone(0, i, fb);
    MulMonotone(i, i + 1, fb);
    MulMonotone(i + 1, n, fb);
  }

  function SampleAt(c: Chunk, i: nat): Sample
    requires HeaderOk(c) && i < Length(c)
  {
    PayloadSize(c);
    FrameInside(i, Length(c), FrameBytes(c.format));
    Sample(c.runId, c.capturePoint, c.format, c.range.timeline, c.segment, c.range.begin + i,
           c.bytes[i * FrameBytes(c.format)..(i + 1) * FrameBytes(c.format)])
  }

  function Samples(c: Chunk): (s: seq<Sample>)
    requires HeaderOk(c)
    ensures |s| == Length(c)
    ensures forall i :: 0 <= i < |s| ==> s[i] == SampleAt(c, i)
  {
    seq(Length(c), i requires 0 <= i < Length(c) => SampleAt(c, i))
  }

  // ---------------------------------------------------------------------------------------
  // Appending a chunk to the pending one.
  // ---------------------------------------------------------------------------------------

  predicate CanAppend(a: Chunk, b: Chunk) {
    && a.runId == b.runId && a.capturePoint == b.capturePoint
    && a.format == b.format
    && a.range.timeline == b.range.timeline && a.range.rate == b.range.rate
    && a.range.end == b.range.begin
    && a.segment == b.segment
    && a.producerSequence < b.producerSequence
    && |a.bytes| <= PCM_BATCH_BYTES
    && |a.discontinuities| + |b.discontinuities| <= MAX_DISCONTINUITIES
    && |a.causes| + |b.causes| <= MAX_FACT_CAUSES
    && |b.bytes| <= PCM_BATCH_BYTES - |a.bytes|
  }

  /** The causes of both, each once. */
  function MergeCauses(a: seq<FactId>, b: seq<FactId>): seq<FactId> {
    if b == [] then a
    else
      var before := MergeCauses(a, b[..|b| - 1]);
      if b[|b| - 1] in before then before else before + [b[|b| - 1]]
  }

  function Merge(a: Chunk, b: Chunk): Chunk {
    a.(range := a.range.(end := b.range.end),
       bytes := a.bytes + b.bytes,
       discontinuities := a.discontinuities + b.discontinuities,
       causes := MergeCauses(a.causes, b.causes))
  }

  /** Chunks are joined exactly when the second goes on where the first ends, of the same stream
      and segment and produced later, and both together keep within one message: 128 KiB of PCM
      and the limits of discontinuities and causes. */
  lemma AppendsExactly(a: Chunk, b: Chunk)
    ensures CanAppend(a, b) <==>
            && a.runId == b.runId && a.capturePoint == b.capturePoint && a.segment == b.segment
            && a.format.pcm == b.format.pcm && a.format.sampleRate == b.format.sampleRate
            && a.format.channels == b.format.channels
            && a.range.timeline == b.range.timeline && a.range.rate == b.range.rate
            && a.range.end == b.range.begin && a.producerSequence < b.producerSequence
            && |Merge(a, b).bytes| <= 131072
            && |Merge(a, b).discontinuities| <= MAX_DISCONTINUITIES
            && |a.causes| + |b.causes| <= MAX_FACT_CAUSES
  {
  }

  /** The loop that appends the causes not there yet. */
  method AppendCauses(a: seq<FactId>, b: seq<FactId>) returns (all: seq<FactId>)
    ensures all == MergeCauses(a, b)
  {
    all := a;
    for i := 0 to |b|
      invariant all == MergeCauses(a, b[..i])
    {
      assert b[..i + 1][..i] == b[..i];
      if b[i] !in all { all := all + [b[i]]; }
    }
    assert b[..|b|] == b;
  }

  lemma {:induction false} MergedCausesOk(runId: string, a: seq<FactId>, b: seq<FactId>)
    requires CausesOk(runId, a) && CausesOk(runId, b) && |a| + |b| <= MAX_FACT_CAUSES
    ensures CausesOk(runId, MergeCauses(a, b)) && |MergeCauses(a, b)| <= |a| + |b|
    ensures forall id :: id in MergeCauses(a, b) <==> id in a || id in b
    decreases |b|
  {
    if b != [] {
      var rest := b[..|b| - 1];
      MergedCausesOk(runId, a, rest);
      assert b == rest + [b[|b| - 1]];
    }
  }

  lemma MergedHeaderOk(a: Chunk, b: Chunk)
    requires HeaderOk(a) && HeaderOk(b) && CanAppend(a, b)
    ensures HeaderOk(Merge(a, b))
  {
    var m := Merge(a, b);
    var fb := FrameBytes(a.format);
    PayloadSize(a);
    PayloadSize(b);
    Distribute(Length(a), Length(b), fb);
    assert Length(m) == Length(a) + Length(b);
    assert |m.bytes| == Length(m) * fb <= MAX_PAYLOAD_BYTES;
    FramesFit(Length(m), fb);
  }

  lemma FramesFit(n: nat, fb: nat)
    requires fb > 0 && n * fb <= MAX_PAYLOAD_BYTES
    ensures n <= MAX_PAYLOAD_BYTES / fb
  {
    var q := MAX_PAYLOAD_BYTES / fb;
    if n > q {
      MulMonotone(q + 1, n, fb);
      Distribute(q, 1, fb);
    }
  }

  /** Merging keeps a chunk well formed. */
  lemma MergedWellFormed(a: Chunk, b: Chunk)
    requires WellFormed(a) && WellFormed(b) && CanAppend(a, b)
    ensures WellFormed(Merge(a, b))
  {
    MergedHeaderOk(a, b);
    MergedCausesOk(a.runId, a.causes, b.causes);
  }

  /** A merged chunk means what its parts mean, one after the other. */
  lemma MergedSamples(a: Chunk, b: Chunk)
    requires HeaderOk(a) && HeaderOk(b) && CanAppend(a, b) && HeaderOk(Merge(a, b))
    ensures Samples(Merge(a, b)) == Samples(a) + Samples(b)
  {
    forall i | 0 <= i < Length(a) + Length(b)
      ensures Samples(Merge(a, b))[i] == (Samples(a) + Samples(b))[i]
    {
      if i < Length(a) { EarlySample(a, b, i); } else { LateSample(a, b, i - Length(a)); }
    }
  }

  lemma EarlySample(a: Chunk, b: Chunk, i: nat)
    requires HeaderOk(a) && HeaderOk(b) && CanAppend(a, b) && HeaderOk(Merge(a, b)) && i < Length(a)
    ensures SampleAt(Merge(a, b), i) == SampleAt(a, i)
  {
    var fb := FrameBytes(a.format);
    PayloadSize(a);
    FrameInside(i, Length(a), fb);
    MiddleSlice([], a.bytes, b.bytes, i * fb, (i + 1) * fb);
    assert [] + a.bytes + b.bytes == Merge(a, b).bytes;
  }

  lemma LateSample(a: Chunk, b: Chunk, k: nat)
    requires HeaderOk(a) && HeaderOk(b) && CanAppend(a, b) && HeaderOk(Merge(a, b)) && k < Length(b)
    ensures SampleAt(Merge(a, b), Length(a) + k) == SampleAt(b, k)
  {
    var fb := FrameBytes(a.format);
    PayloadSize(a);
    PayloadSize(b);
    FrameInside(k, Length(b), fb);
    Distribute(Length(a), k, fb);
    Distribute(Length(a), k + 1, fb);
    MiddleSlice(a.bytes, b.bytes, [], k * fb, (k + 1) * fb);
    assert a.bytes + b.bytes + [] == Merge(a, b).bytes;
  }

  lemma MiddleSlice(x: seq<byte>, y: seq<byte>, z: seq<byte>, lo: nat, hi: nat)
    requires lo <= hi <= |y|
    ensures (x + y + z)[|x| + lo..|x| + hi] == y[lo..hi]
  {
  }

  // ---------------------------------------------------------------------------------------
  // Cutting a chunk at the PCM limit.
  // ---------------------------------------------------------------------------------------

  /** The part of a chunk below the limit, hashed again. */
  function Cut(c: Chunk, limit: nat, sha: seq<byte> -> seq<byte>): Chunk
    requires HeaderOk(c) && c.range.begin < limit < c.range.end
  {
    PayloadSize(c);
    var kept := (limit - c.range.begin) * FrameBytes(c.format);
    MulMonotone(limit - c.range.begin, Length(c), FrameBytes(c.format));
    c.(range := c.range.(end := limit), bytes := c.bytes[..kept],
       sha256 := Field(Available, Some(sha(c.bytes[..kept])), ""))
  }

  lemma CutHeaderOk(c: Chunk, limit: nat, sha: seq<byte> -> seq<byte>)
    requires HeaderOk(c) && c.range.begin < limit < c.range.end
    ensures HeaderOk(Cut(c, limit, sha))
    ensures |Cut(c, limit, sha).bytes| == (limit - c.range.begin) * FrameBytes(c.format)
  {
    PayloadSize(c);
    MulMonotone(limit - c.range.begin, Length(c), FrameBytes(c.format));
    FramesFit(limit - c.range.begin, FrameBytes(c.format));
  }

  /** A cut chunk stays well formed and means the samples below the limit. */
  lemma CutMeans(c: Chunk, limit: nat, sha: seq<byte> -> seq<byte>)
    requires WellFormed(c) && c.range.begin < limit < c.range.end
    ensures WellFormed(Cut(c, limit, sha))
    ensures Samples(Cut(c, limit, sha)) == Samples(c)[..limit - c.range.begin]
  {
    var cut := Cut(c, limit, sha);
    CutHeaderOk(c, limit, sha);
    forall i | 0 <= i < Length(cut) ensures Samples(cut)[i] == Samples(c)[i] {
      CutSample(c, limit, sha, i);
    }
  }

  lemma PrefixSlice(s: seq<byte>, n: nat, lo: nat, hi: nat)
    requires lo <= hi <= n <= |s|
    ensures s[..n][lo..hi] == s[lo..hi]
  {
  }

  lemma CutSample(c: Chunk, limit: nat, sha: seq<byte> -> seq<byte>, i: nat)
    requires HeaderOk(c) && c.range.begin < limit < c.range.end && HeaderOk(Cut(c, limit, sha))
    requires i < limit - c.range.begin
    ensures SampleAt(Cut(c, limit, sha), i) == SampleAt(c, i)
  {
    var fb := FrameBytes(c.format);
    var frames := limit - c.range.begin;
    PayloadSize(c);
    MulMonotone(frames, Length(c), fb);
    FrameInside(i, frames, fb);
    PrefixSlice(c.bytes, frames * fb, i * fb, (i + 1) * fb);
  }

  /** Dividing the payload by its frames gives back the bytes of one frame. */
  lemma BytesPerFrame(c: Chunk)
    requires HeaderOk(c) && Length(c) > 0
    ensures |c.bytes| % Length(c) == 0 && |c.bytes| / Length(c) == FrameBytes(c.format)
  {
    PayloadSize(c);
    DivModUnique(FrameBytes(c.format), 0, Length(c));
  }

  // ---------------------------------------------------------------------------------------
  // Groups of chunks and the message that carries each.
  // ---------------------------------------------------------------------------------------

  predicate AllWellFormed(cs: seq<Chunk>) {
    forall i :: 0 <= i < |cs| ==> WellFormed(cs[i])
  }

  function AllSamples(cs: seq<Chunk>): seq<Sample>
    requires AllWellFormed(cs)
  {
    if cs == [] then [] else AllSamples(cs[..|cs| - 1]) + Samples(cs[|cs| - 1])
  }

  function MergeAll(cs: seq<Chunk>): Chunk
    requires cs != []
  {
    if |cs| == 1 then cs[0] else Merge(MergeAll(cs[..|cs| - 1]), cs[|cs| - 1])
  }

  /** Each chunk of the group could be appended to those before it. */
  predicate Mergeable(cs: seq<Chunk>) {
    cs != [] && (|cs| > 1 ==> Mergeable(cs[..|cs| - 1]) && CanAppend(MergeAll(cs[..|cs| - 1]), cs[|cs| - 1]))
  }

  predicate Hashed(c: Chunk) { c.sha256.availability.Available? && Consistent(c.sha256) }

  predicate SameButHash(a: Chunk, b: Chunk) { Hashed(a) && a == b.(sha256 := a.sha256) }

  /** The hash is not part of what a chunk means. */
  lemma HashIsNotMeaning(m: Chunk, c: Chunk)
    requires SameButHash(m, c) && WellFormed(c)
    ensures WellFormed(m)
    ensures Samples(m) == Samples(c)
  {
    assert HeaderOk(m);
    forall i | 0 <= i < Length(c) ensures SampleAt(m, i) == SampleAt(c, i) {
    }
  }

  /** The message m carries exactly this group. */
  predicate Carries(m: Chunk, group: seq<Chunk>) {
    Mergeable(group) && AllWellFormed(group) && SameButHash(m, MergeAll(group))
  }

  lemma {:induction false} GroupMeans(group: seq<Chunk>)
    requires Mergeable(group) && AllWellFormed(group)
    ensures WellFormed(MergeAll(group))
    ensures Samples(MergeAll(group)) == AllSamples(group)
  {
    if |group| == 1 {
      assert group[..0] == [];
    } else {
      var rest := group[..|group| - 1];
      GroupMeans(rest);
      MergedWellFormed(MergeAll(rest), group[|group| - 1]);
      MergedSamples(MergeAll(rest), group[|group| - 1]);
    }
  }

  lemma {:induction false} SamplesAppend(a: seq<Chunk>, b: seq<Chunk>)
    requires AllWellFormed(a) && AllWellFormed(b)
    ensures AllWellFormed(a + b)
    ensures AllSamples(a + b) == AllSamples(a) + AllSamples(b)
    decreases |b|
  {
    if b == [] {
      assert a + b == a;
    } else {
      SamplesAppend(a, b[..|b| - 1]);
      SamplesSnoc(a + b[..|b| - 1], b[|b| - 1]);
      SamplesSnoc(b[..|b| - 1], b[|b| - 1]);
      AppendLast(a, b);
      WithLast(b);
    }
  }

  lemma SamplesSnoc(cs: seq<Chunk>, c: Chunk)
    requires AllWellFormed(cs) && WellFormed(c)
    ensures AllWellFormed(cs + [c]) && AllSamples(cs + [c]) == AllSamples(cs) + Samples(c)
  {
    assert (cs + [c])[..|cs|] == cs;
  }
}
