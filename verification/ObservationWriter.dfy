/**
 The streaming writer of the evidence (src/audio_qa_runtime_session.cpp): facts in batches
 that are halved when the encoder finds them too large, PCM coalesced into messages, and one
 sequence shared by every message of the channel.
 */
module ObservationWriter {
  import opened AudioChunks
  import opened Bytes
  import opened Coalescing
  import opened Collections
  import opened Integers
  import opened Options
  import SilentGate

  const BATCH_CAPACITY: nat := 256
  const FIRST_SEQUENCE: nat := 2

  datatype Message<F> =
    | FactMessage(sequence: nat, facts: seq<F>)
    | PcmMessage(sequence: nat, chunk: Chunk)
    | StatusMessage(sequence: nat)
    | TerminalMessage(sequence: nat)

  /** What the fact encoder answers for a batch. */
  datatype Encoding = Encoded | TooLarge | Rejected

  function FactsOf<F>(sent: seq<Message<F>>): seq<F> {
    if sent == [] then []
    else FactsOf(sent[..|sent| - 1]) + if sent[|sent| - 1].FactMessage? then sent[|sent| - 1].facts else []
  }

  function PcmOf<F>(sent: seq<Message<F>>): seq<Chunk> {
    if sent == [] then []
    else PcmOf(sent[..|sent| - 1]) + if sent[|sent| - 1].PcmMessage? then [sent[|sent| - 1].chunk] else []
  }

  /** The sequences run 2, 3, 4, … without gap or repeat. */
  predicate Consecutive<F>(sent: seq<Message<F>>) {
    forall i :: 0 <= i < |sent| ==> sent[i].sequence == FIRST_SEQUENCE + i
  }

  /** … or they do up to message k, which takes no number: the next one repeats its own. */
  predicate RepeatsAfter<F>(sent: seq<Message<F>>, k: nat) {
    k < |sent| && forall i :: 0 <= i < |sent| ==> sent[i].sequence == FIRST_SEQUENCE + if i <= k then i else i - 1
  }

  lemma RepeatsMeans<F>(sent: seq<Message<F>>, k: nat)
    requires RepeatsAfter(sent, k)
    ensures Consecutive(sent) <==> |sent| == k + 1
    ensures |sent| > k + 1 ==> sent[k + 1].sequence == sent[k].sequence
  {
    if |sent| > k + 1 { assert sent[k + 1].sequence == FIRST_SEQUENCE + k; }
  }

  function ByteCount(cs: seq<Chunk>): nat {
    if cs == [] then 0 else ByteCount(cs[..|cs| - 1]) + |cs[|cs| - 1].bytes|
  }

  lemma OneMoreMessage<F>(sent: seq<Message<F>>, m: Message<F>)
    ensures FactsOf(sent + [m]) == FactsOf(sent) + if m.FactMessage? then m.facts else []
    ensures PcmOf(sent + [m]) == PcmOf(sent) + if m.PcmMessage? then [m.chunk] else []
    ensures Consecutive(sent) && m.sequence == FIRST_SEQUENCE + |sent| ==>
              Consecutive(sent + [m]) && RepeatsAfter(sent + [m], |sent|)
  {
    assert (sent + [m])[..|sent|] == sent;
  }

  lemma OneMorePcm<F>(sent: seq<Message<F>>, m: Message<F>)
    requires m.PcmMessage? && Consecutive(sent) && m.sequence == FIRST_SEQUENCE + |sent|
    ensures FactsOf(sent + [m]) == FactsOf(sent) && PcmOf(sent + [m]) == PcmOf(sent) + [m.chunk]
    ensures Consecutive(sent + [m]) && RepeatsAfter(sent + [m], |sent|)
  {
    OneMoreMessage(sent, m);
    assert FactsOf(sent) + [] == FactsOf(sent);
  }

  lemma OneMoreRepeat<F>(sent: seq<Message<F>>, m: Message<F>, k: nat)
    requires RepeatsAfter(sent, k) && m.sequence + 1 == FIRST_SEQUENCE + |sent|
    ensures RepeatsAfter(sent + [m], k)
  {
  }

  lemma OneMoreChunk(cs: seq<Chunk>, c: Chunk)
    ensures ByteCount(cs + [c]) == ByteCount(cs) + |c.bytes|
  {
    assert (cs + [c])[..|cs|] == cs;
  }

  lemma {:induction false} BytesAppend(a: seq<Chunk>, b: seq<Chunk>)
    ensures ByteCount(a + b) == ByteCount(a) + ByteCount(b)
    decreases |b|
  {
    if b == [] {
      assert a + b == a;
    } else {
      var n := |b| - 1;
      BytesAppend(a, b[..n]);
      AppendLast(a, b);
      OneMoreChunk(a + b[..n], b[n]);
    }
  }

  lemma {:induction false} GroupBytes(group: seq<Chunk>)
    requires group != []
    ensures |MergeAll(group).bytes| == ByteCount(group)
  {
    if |group| == 1 {
      assert group[..0] == [];
    } else {
      GroupBytes(group[..|group| - 1]);
    }
  }

  /** Coalescing loses and adds no byte. */
  lemma {:induction false} BytesSurvive(messages: seq<Chunk>, groups: seq<seq<Chunk>>)
    requires Carried(messages, groups)
    ensures ByteCount(messages) == ByteCount(Flatten(groups))
  {
    if groups != [] {
      var n := |groups| - 1;
      CarriedPrefix(messages, groups);
      BytesSurvive(messages[..n], groups[..n]);
      BytesOneMore(messages[..n], messages[n], Flatten(groups[..n]), groups[n]);
      WithLast(messages);
    }
  }

  lemma BytesOneMore(ms: seq<Chunk>, m: Chunk, cs: seq<Chunk>, group: seq<Chunk>)
    requires Carries(m, group) && ByteCount(ms) == ByteCount(cs)
    ensures ByteCount(ms + [m]) == ByteCount(cs + group)
  {
    OneMoreChunk(ms, m);
    GroupBytes(group);
    BytesAppend(cs, group);
  }

  // ---------------------------------------------------------------------------------------
  // What a run of calls asks for, without batches, messages or failures.
  // ---------------------------------------------------------------------------------------

  datatype Call<F> =
    | FactCall(fact: Option<F>)
    | PcmCall(copied: Option<Chunk>)
    | StatusCall(encodes: bool)
    | TerminalCall(encodes: bool)
    | SegmentCall(forwarded: nat)
    | LimitCall(limit: nat)
    | FlushCall(finalizePcm: bool)

  /** A copied chunk is well formed and hashed. */
  predicate CallOk<F>(call: Call<F>) {
    call.PcmCall? && call.copied.Some? ==> WellFormed(call.copied.value) && Hashed(call.copied.value)
  }

  /** The chunk, if there is one, has some length. */
  predicate Lasting(chunk: Option<Chunk>) {
    chunk.Some? ==> chunk.value.range.begin < chunk.value.range.end
  }

  /** What the call brings could be copied, and a block has some length. */
  predicate Eager<F>(call: Call<F>) {
    && (call.FactCall? ==> call.fact.Some?)
    && (call.PcmCall? ==> call.copied.Some? && Lasting(call.copied))
  }

  function FactIn<F>(call: Call<F>): seq<F> {
    if call.FactCall? && call.fact.Some? then [call.fact.value] else []
  }

  function FactsIn<F>(calls: seq<Call<F>>): seq<F> {
    if calls == [] then [] else FactsIn(calls[..|calls| - 1]) + FactIn(calls[|calls| - 1])
  }

  /** The open segments, the limit, and every chunk that counts so far. */
  datatype Intake = Intake(starts: seq<nat>, segment: nat, consumed: nat, limit: nat, chunks: seq<Chunk>)

  function TakeIn<F>(i: Intake, call: Call<F>, sha: seq<byte> -> seq<byte>): Intake
    requires CallOk(call)
  {
    match call
    case PcmCall(Some(chunk)) =>
      var (starts, segment) := SilentGate.Opened(i.starts, i.segment, i.consumed);
      InSegmentOk(chunk, segment);
      Intake(starts, segment, i.consumed + 1, i.limit, i.chunks + Below(InSegment(chunk, segment), i.limit, sha))
    case SegmentCall(forwarded) => i.(starts := i.starts + [forwarded])
    case LimitCall(limit) => i.(limit := limit)
    case _ => i
  }

  function IntakeAfter<F>(calls: seq<Call<F>>, sha: seq<byte> -> seq<byte>): Intake
    requires forall i :: 0 <= i < |calls| ==> CallOk(calls[i])
  {
    if calls == [] then Intake([], 0, 0, MAX_U64, [])
    else TakeIn(IntakeAfter(calls[..|calls| - 1], sha), calls[|calls| - 1], sha)
  }

  /** What counts so far only ever grows. */
  lemma IntakeGrows<F>(calls: seq<Call<F>>, sha: seq<byte> -> seq<byte>, i: nat)
    requires i < |calls| && forall k :: 0 <= k < |calls| ==> CallOk(calls[k])
    ensures ByteCount(IntakeAfter(calls[..i], sha).chunks) <= ByteCount(IntakeAfter(calls[..i + 1], sha).chunks)
  {
    assert calls[..i + 1][..i] == calls[..i];
    TakeInGrows(IntakeAfter(calls[..i], sha), calls[i], sha);
  }

  lemma {:induction false} IntakeOnlyGrows<F>(calls: seq<Call<F>>, sha: seq<byte> -> seq<byte>, i: nat)
    requires i <= |calls| && forall k :: 0 <= k < |calls| ==> CallOk(calls[k])
    ensures ByteCount(IntakeAfter(calls[..i], sha).chunks) <= ByteCount(IntakeAfter(calls, sha).chunks)
    decreases |calls| - i
  {
    if i == |calls| {
      assert calls[..i] == calls;
    } else {
      IntakeGrows(calls, sha, i);
      IntakeOnlyGrows(calls, sha, i + 1);
    }
  }

  lemma TakeInGrows<F>(intake: Intake, call: Call<F>, sha: seq<byte> -> seq<byte>)
    requires CallOk(call)
    ensures ByteCount(intake.chunks) <= ByteCount(TakeIn(intake, call, sha).chunks)
  {
    if call.PcmCall? && call.copied.Some? {
      var segment := SilentGate.Opened(intake.starts, intake.segment, intake.consumed).1;
      InSegmentOk(call.copied.value, segment);
      BytesAppend(intake.chunks, Below(InSegment(call.copied.value, segment), intake.limit, sha));
    }
  }

  /** The messages sent and the pending one. */
  function Stream(sent: seq<Chunk>, pending: Option<Chunk>): seq<Chunk> {
    sent + if pending.Some? then [pending.value] else []
  }

  /** The messages sent and the pending one carry everything accepted, in order. */
  ghost predicate PcmGood(sent: seq<Chunk>, pending: Option<Chunk>, groups: seq<seq<Chunk>>, count: nat, bytes: nat) {
    Carried(Stream(sent, pending), groups) && count == |sent| && bytes == ByteCount(sent) <= MAX_U64
  }

  lemma PendingSent(sent: seq<Chunk>, last: Chunk, chunk: Chunk, groups: seq<seq<Chunk>>, count: nat, bytes: nat)
    requires PcmGood(sent, Some(last), groups, count, bytes) && SameButHash(chunk, last)
    ensures bytes + |chunk.bytes| <= MAX_U64 ==>
              PcmGood(sent + [chunk], None, groups, count + 1, bytes + |chunk.bytes|)
  {
    OneMoreChunk(sent, chunk);
    Rehashed(sent, last, chunk, groups);
    assert Stream(sent + [chunk], None) == sent + [chunk];
  }

  /** The bytes sent and those pending are all the bytes taken in. */
  lemma PendingWeighs(sent: seq<Chunk>, last: Chunk, groups: seq<seq<Chunk>>, count: nat, bytes: nat)
    requires PcmGood(sent, Some(last), groups, count, bytes)
    ensures bytes + |last.bytes| == ByteCount(Flatten(groups))
  {
    BytesSurvive(sent + [last], groups);
    OneMoreChunk(sent, last);
  }

  lemma StartGroup(sent: seq<Chunk>, chunk: Chunk, groups: seq<seq<Chunk>>, count: nat, bytes: nat)
    requires PcmGood(sent, None, groups, count, bytes) && WellFormed(chunk) && Hashed(chunk)
    ensures PcmGood(sent, Some(chunk), groups + [[chunk]], count, bytes)
    ensures Flatten(groups + [[chunk]]) == Flatten(groups) + [chunk]
  {
    assert Stream(sent, None) == sent;
    NewGroup(sent, chunk, groups);
  }

  /** The data channel; `up(n)` is whether its n-th write goes through. */
  class Channel<F> {
    const up: nat -> bool
    var attempts: nat
    var sent: seq<Message<F>>

    constructor (up: nat -> bool)
      ensures attempts == 0 && sent == [] && this.up == up
    {
      this.up, attempts, sent := up, 0, [];
    }

    method Write(m: Message<F>) returns (ok: bool)
      modifies this
      ensures ok == up(old(attempts)) && attempts == old(attempts) + 1
      ensures sent == if ok then old(sent) + [m] else old(sent)
    {
      ok := up(attempts);
      attempts := attempts + 1;
      if ok { sent := sent + [m]; }
    }
  }

  class StreamingObservationWriter<F(!new)> {
    const channel: Channel<F>
    const encodeFacts: (seq<F>, nat) -> Encoding
    const pcmFits: (Chunk, nat) -> bool
    const sha: seq<byte> -> seq<byte>
    var facts: seq<F>
    var pending: Option<Chunk>
    var segmentStarts: seq<nat>
    var consumedPcm: nat
    var segment: nat
    var sequence: nat
    var factCount: nat
    var pcmCount: nat
    var pcmBytes: nat
    var pcmLimit: nat
    var lastPcmEnd: nat
    var valid: bool
    /** Every fact taken in, and the chunks taken in grouped by the message that carries them. */
    ghost var accepted: seq<F>
    ghost var groups: seq<seq<Chunk>>
    /** A PCM message was written whose bytes no longer fit the 64-bit total. */
    ghost var overflowed: bool
    ghost var overflowAt: nat

    ghost predicate Numbering()
      reads this`sequence, this`overflowed, this`overflowAt, channel
    {
      if overflowed then RepeatsAfter(channel.sent, overflowAt) && sequence + 1 == FIRST_SEQUENCE + |channel.sent|
      else Consecutive(channel.sent) && sequence == FIRST_SEQUENCE + |channel.sent|
    }

    /** The bytes of everything taken in. */
    ghost function Weight(): nat
      reads this`groups
    {
      ByteCount(Flatten(groups))
    }

    /** What was sent followed by the buffer is everything accepted, in order. */
    ghost predicate FactsKept()
      reads this`facts, this`accepted, this`valid, this`factCount, channel
    {
      && FactsOf(channel.sent) <= accepted
      && (valid ==> FactsOf(channel.sent) + facts == accepted && factCount == |accepted|)
    }

    ghost predicate PcmKept()
      reads this`pending, this`groups, this`valid, this`pcmBytes, this`pcmCount, channel
    {
      valid ==> PcmGood(PcmOf(channel.sent), pending, groups, pcmCount, pcmBytes)
    }

    ghost predicate Valid()
      reads this`facts, this`accepted, this`valid, this`factCount, this`pending, this`groups,
            this`pcmBytes, this`pcmCount, this`sequence, this`overflowed, this`overflowAt, channel
    {
      Numbering() && FactsKept() && PcmKept() && (valid ==> !overflowed && |facts| < BATCH_CAPACITY)
    }

    constructor (channel: Channel<F>, encodeFacts: (seq<F>, nat) -> Encoding,
                 pcmFits: (Chunk, nat) -> bool, sha: seq<byte> -> seq<byte>)
      requires channel.sent == []
      ensures Valid() && valid && accepted == [] && groups == [] && pending == None && this.channel == channel
      ensures pcmLimit == MAX_U64 && segment == 0 && segmentStarts == [] && consumedPcm == 0
    {
      this.channel, this.encodeFacts, this.pcmFits, this.sha := channel, encodeFacts, pcmFits, sha;
      facts, pending, segmentStarts, consumedPcm, segment := [], None, [], 0, 0;
      sequence, factCount, pcmCount, pcmBytes := FIRST_SEQUENCE, 0, 0, 0;
      pcmLimit, lastPcmEnd, valid := MAX_U64, 0, true;
      accepted, groups, overflowed, overflowAt := [], [], false, 0;
    }

    /** Every PCM message fits. */
    ghost predicate Fitting() {
      forall c: Chunk, n: nat :: pcmFits(c, n)
    }

    /** Nothing outside stands in the way of what is pending: every write goes through, every
        message fits, the pending chunk has length and all the bytes fit the total. */
    ghost predicate Smooth()
      reads this`pending, this`groups
    {
      Willing() && Fitting() && Lasting(pending) && Weight() <= MAX_U64
    }

    /** Exactly when a chunk is taken: nothing is pending, it may be appended to what is, or that
        can be sent. */
    ghost predicate Takes(chunk: Chunk, pending: Option<Chunk>, n: nat, attempt: nat, bytes: nat) {
      pending.None? || CanAppend(pending.value, chunk) || Sendable(pending.value, n, attempt, bytes)
    }

    /** The encoder never refuses a single fact and only ever finds batches too large; every
        write goes through. */
    ghost predicate Willing()
    {
      && (forall batch: seq<F>, n: nat :: batch != [] ==>
            encodeFacts(batch, n).Encoded? || (|batch| > 1 && encodeFacts(batch, n).TooLarge?))
      && (forall n: nat :: channel.up(n))
    }

    lemma WillingTakes(batch: seq<F>, n: nat)
      requires Willing() && batch != []
      ensures encodeFacts(batch, n).Encoded? || (|batch| > 1 && encodeFacts(batch, n).TooLarge?)
    {
    }

    /** Sends the facts from `offset` on in the largest batches the encoder takes, halving. */
    method SendBatch(offset: nat) returns (count: nat)
      requires valid && !overflowed && Numbering() && offset < |facts|
      modifies this`valid, this`sequence, channel
      ensures Numbering()
      ensures valid ==> 0 < count <= |facts| - offset
                        && FactsOf(channel.sent) == FactsOf(old(channel.sent)) + facts[offset..offset + count]
                        && PcmOf(channel.sent) == PcmOf(old(channel.sent))
      ensures !valid ==> channel.sent == old(channel.sent)
      ensures Willing() ==> valid
    {
      count := |facts| - offset;
      while true
        invariant 0 < count <= |facts| - offset
        invariant valid && channel.sent == old(channel.sent) && sequence == old(sequence)
        invariant channel.attempts == old(channel.attempts)
        decreases count
      {
        var batch := facts[offset..offset + count];
        if Willing() { WillingTakes(batch, sequence); }
        match encodeFacts(batch, sequence) {
          case Encoded =>
            var message := FactMessage(sequence, batch);
            OneMoreMessage(channel.sent, message);
            var written := channel.Write(message);
            if !written {
              valid := false;
              return;
            }
            sequence := sequence + 1;
            return;
          case TooLarge =>
            if count == 1 {
              valid := false;
              return;
            }
          case Rejected =>
            valid := false;
            return;
        }
        count := count / 2;
      }
    }

    /** Sends every buffered fact. The batch loop always leaves with a batch written or the
        writer invalid, so the source's check for neither has nothing to catch. */
    method FlushFacts() returns (ok: bool)
      requires Numbering() && FactsKept() && valid && !overflowed
      modifies this`valid, this`sequence, this`facts, channel
      ensures Numbering() && FactsKept() && ok == valid
      ensures ok ==> facts == [] && FactsOf(channel.sent) == accepted && PcmOf(channel.sent) == PcmOf(old(channel.sent))
      ensures Willing() ==> ok
    {
      ghost var before := FactsOf(channel.sent);
      var offset := 0;
      while offset < |facts|
        invariant 0 <= offset <= |facts| && valid && facts == old(facts)
        invariant Numbering()
        invariant FactsOf(channel.sent) == before + facts[..offset]
        invariant PcmOf(channel.sent) == PcmOf(old(channel.sent))
        decreases |facts| - offset
      {
        var count := SendBatch(offset);
        if !valid { return false; }
        assert facts[..offset] + facts[offset..offset + count] == facts[..offset + count];
        offset := offset + count;
      }
      assert facts[..offset] == facts;
      facts := [];
      return true;
    }

    /** Sends the pending PCM with the hash of its bytes. Its merged chunk is always well
        formed, so only an empty range, an oversize message, the channel or the byte total can
        refuse it. */
    method FlushPcm() returns (ok: bool)
      requires Valid() && valid
      modifies this`valid, this`sequence, this`pending, this`pcmCount, this`pcmBytes,
               this`overflowed, this`overflowAt, channel
      ensures Valid() && ok == valid
      ensures ok ==> pending.None?
      ensures ok <==> old(pending).None?
                      || Sendable(old(pending).value, old(sequence), old(channel.attempts), old(pcmBytes))
      ensures overflowed ==> Weight() > MAX_U64
      ensures FactsOf(channel.sent) == FactsOf(old(channel.sent))
      ensures old(Smooth()) ==> ok
    {
      if pending.None? { return true; }
      if Smooth() { SmoothSends(); }
      var chunk := pending.value.(sha256 := Field(Available, Some(sha(pending.value.bytes)), ""));
      PendingEncodes();
      if !EncodesPcm(chunk, sequence) {
        valid := false;
        return false;
      }
      ok := WritePcm(chunk);
    }

    /** Writes the message and takes its sequence, unless the byte total cannot hold it. */
    method PostPcm(chunk: Chunk) returns (ok: bool)
      requires Numbering() && valid && !overflowed && pcmBytes <= MAX_U64
      modifies this`valid, this`sequence, this`overflowed, this`overflowAt, channel
      ensures Numbering() && ok == valid && (overflowed ==> !ok)
      ensures ok <==> channel.up(old(channel.attempts)) && pcmBytes + |chunk.bytes| <= MAX_U64
      ensures FactsOf(channel.sent) == FactsOf(old(channel.sent))
      ensures ok ==> PcmOf(channel.sent) == PcmOf(old(channel.sent)) + [chunk]
      ensures overflowed <==> channel.up(old(channel.attempts)) && pcmBytes + |chunk.bytes| > MAX_U64
      ensures overflowed ==> |channel.sent| == overflowAt + 1 && channel.sent[overflowAt].sequence == sequence
    {
      var message := PcmMessage(sequence, chunk);
      OneMorePcm(channel.sent, message);
      var written := channel.Write(message);
      ok := written && |chunk.bytes| <= MAX_U64 - pcmBytes;
      if ok {
        sequence := sequence + 1;
      } else {
        valid := false;
        if written { overflowed, overflowAt := true, |channel.sent| - 1; }
      }
    }

    method WritePcm(chunk: Chunk) returns (ok: bool)
      requires Numbering() && PcmKept() && valid && !overflowed && pending.Some? && SameButHash(chunk, pending.value)
      modifies this`valid, this`sequence, this`pending, this`pcmCount, this`pcmBytes,
               this`overflowed, this`overflowAt, channel
      ensures Numbering() && PcmKept() && ok == valid && (overflowed ==> !ok)
      ensures overflowed ==> Weight() > MAX_U64
      ensures ok ==> pending.None?
      ensures ok <==> channel.up(old(channel.attempts)) && old(pcmBytes) + |chunk.bytes| <= MAX_U64
      ensures FactsOf(channel.sent) == FactsOf(old(channel.sent))
    {
      PendingSent(PcmOf(channel.sent), pending.value, chunk, groups, pcmCount, pcmBytes);
      PendingWeighs(PcmOf(channel.sent), pending.value, groups, pcmCount, pcmBytes);
      ok := PostPcm(chunk);
      if ok {
        pcmCount := pcmCount + 1;
        pcmBytes := pcmBytes + |chunk.bytes|;
        pending := None;
      }
    }

    method FlushUnlocked(finalizePcm: bool) returns (ok: bool)
      requires Numbering() && FactsKept() && PcmKept() && (valid ==> !overflowed)
      modifies this`valid, this`sequence, this`facts, this`pending, this`pcmCount, this`pcmBytes,
               this`overflowed, this`overflowAt, channel
      ensures Valid() && ok == valid
      ensures ok ==> facts == [] && FactsOf(channel.sent) == accepted
      ensures ok && finalizePcm ==> pending.None? && Carried(PcmOf(channel.sent), groups)
      ensures ok ==> old(valid)
      ensures overflowed ==> old(overflowed) || (old(valid) && Weight() > MAX_U64)
      ensures old(valid) && Willing() && !finalizePcm ==> ok
      ensures old(valid) && old(Smooth()) ==> ok
      ensures !finalizePcm ==> pending == old(pending)
    {
      if !valid { return false; }
      ok := FlushFacts();
      if ok && finalizePcm {
        ok := FlushPcm();
      }
    }

    /** Takes in a fact copied from the Engine, or built by the Runtime; an Engine fact that
        cannot be copied ends the evidence. */
    method TakeFact(fact: Option<F>) returns (ok: bool)
      requires Valid()
      modifies this`valid, this`sequence, this`facts, this`factCount, this`accepted,
               this`pending, this`pcmCount, this`pcmBytes,
               this`overflowed, this`overflowAt, channel
      ensures Valid() && ok == valid && (ok ==> old(valid) && fact.Some?)
      ensures accepted == old(accepted) + if old(valid) && fact.Some? then [fact.value] else []
      ensures old(valid) && fact.Some? && Willing() ==> ok
      ensures pending == old(pending)
      ensures overflowed ==> old(overflowed) || (old(valid) && Weight() > MAX_U64)
    {
      if !valid { return false; }
      if fact.None? {
        valid := false;
        return false;
      }
      assert FactsOf(channel.sent) + facts + [fact.value] == FactsOf(channel.sent) + (facts + [fact.value]);
      facts := facts + [fact.value];
      factCount := factCount + 1;
      accepted := accepted + [fact.value];
      if |facts| == BATCH_CAPACITY {
        ok := FlushUnlocked(false);
        return;
      }
      return true;
    }

    method Flush(finalizePcm: bool) returns (ok: bool)
      requires Valid()
      modifies this`valid, this`sequence, this`facts, this`pending, this`pcmCount, this`pcmBytes,
               this`overflowed, this`overflowAt, channel
      ensures Valid() && ok == valid && (ok ==> old(valid))
      ensures ok ==> FactsOf(channel.sent) == accepted
      ensures ok && finalizePcm ==> pending.None? && Carried(PcmOf(channel.sent), groups)
      ensures !finalizePcm ==> pending == old(pending)
      ensures old(valid) && old(Smooth()) ==> ok
      ensures overflowed ==> old(overflowed) || (old(valid) && Weight() > MAX_U64)
    {
      ok := FlushUnlocked(finalizePcm);
    }

    /** Writes a message that is not evidence and takes its sequence. */
    method Post(message: Message<F>) returns (ok: bool)
      requires Numbering() && message.sequence == sequence && (message.StatusMessage? || message.TerminalMessage?)
      modifies this`sequence, channel
      ensures Numbering() && ok == channel.up(old(channel.attempts))
      ensures channel.sent == old(channel.sent) + if ok then [message] else []
      ensures sequence == old(sequence) + if ok then 1 else 0
      ensures FactsOf(channel.sent) == FactsOf(old(channel.sent)) && PcmOf(channel.sent) == PcmOf(old(channel.sent))
    {
      OneMoreMessage(channel.sent, message);
      if overflowed { OneMoreRepeat(channel.sent, message, overflowAt); }
      ok := channel.Write(message);
      if ok { sequence := sequence + 1; }
    }

    /** A status takes the next sequence; failing to send it does not end the evidence. */
    method SendStatus(encodes: bool) returns (ok: bool)
      requires Valid()
      modifies this`sequence, channel
      ensures Valid() && valid == old(valid)
      ensures ok <==> valid && encodes && channel.up(old(channel.attempts))
      ensures channel.sent == old(channel.sent) + if ok then [StatusMessage(old(sequence))] else []
    {
      if !valid || !encodes { return false; }
      ok := Post(StatusMessage(sequence));
    }

    /** The terminal is sent whether or not the evidence is still valid. */
    method SendTerminal(encodes: bool) returns (ok: bool)
      requires Valid()
      modifies this`sequence, channel
      ensures Valid() && valid == old(valid)
      ensures ok <==> encodes && channel.up(old(channel.attempts))
      ensures channel.sent == old(channel.sent) + if ok then [TerminalMessage(old(sequence))] else []
      ensures !overflowed ==> Consecutive(channel.sent)
      ensures ok && overflowed ==>
                && !Consecutive(channel.sent)
                && channel.sent[overflowAt + 1].sequence == channel.sent[overflowAt].sequence
    {
      if !encodes { return false; }
      ok := Post(TerminalMessage(sequence));
      if overflowed { RepeatsMeans(channel.sent, overflowAt); }
    }

    method BeginSegment(forwarded: nat)
      modifies this`segmentStarts
      ensures segmentStarts == old(segmentStarts) + [forwarded]
    {
      segmentStarts := segmentStarts + [forwarded];
    }

    method SetPcmLimit(limit: nat)
      modifies this`pcmLimit
      ensures pcmLimit == limit
    {
      pcmLimit := limit;
    }

    /** A block never spans two segments; the one that starts a segment says so. */
    method AdvanceSegment()
      modifies this`segmentStarts, this`segment
      ensures (segmentStarts, segment) == SilentGate.Opened(old(segmentStarts), old(segment), consumedPcm)
    {
      while segmentStarts != [] && consumedPcm >= segmentStarts[0]
        invariant SilentGate.Opened(segmentStarts, segment, consumedPcm)
                  == SilentGate.Opened(old(segmentStarts), old(segment), consumedPcm)
        decreases |segmentStarts|
      {
        segmentStarts := segmentStarts[1..];
        segment := segment + 1;
      }
    }

    /** The chunk, cut at the limit if it goes past it. Its bytes always divide by its frames,
        so the source's rejection here has nothing to catch. */
    method CutAtLimit(chunk: Chunk) returns (kept: Chunk)
      requires WellFormed(chunk) && Hashed(chunk) && chunk.range.begin < pcmLimit
      ensures WellFormed(kept) && Hashed(kept) && [kept] == Below(chunk, pcmLimit, sha)
    {
      if chunk.range.end <= pcmLimit { return chunk; }
      var frames := chunk.range.end - chunk.range.begin;
      BytesPerFrame(chunk);
      var bytesPerFrame := |chunk.bytes| / frames;
      CutMeans(chunk, pcmLimit, sha);
      kept := Cut(chunk, pcmLimit, sha);
      assert |kept.bytes| == (pcmLimit - chunk.range.begin) * bytesPerFrame;
    }

    /** Appends to the pending chunk when it may, or sends that and starts the next one. */
    method Append(chunk: Chunk) returns (ok: bool)
      requires Valid() && valid && WellFormed(chunk) && Hashed(chunk)
      modifies this`valid, this`sequence, this`pending, this`pcmCount, this`pcmBytes, this`overflowed,
               this`overflowAt, this`groups, channel
      ensures Valid() && ok == valid
      ensures ok <==> Takes(chunk, old(pending), old(sequence), old(channel.attempts), old(pcmBytes))
      ensures ok ==> Flatten(groups) == old(Flatten(groups)) + [chunk]
      ensures ok ==> pending == Some(if old(pending).Some? && CanAppend(old(pending).value, chunk)
                                     then Merge(old(pending).value, chunk) else chunk)
      ensures old(pending).Some? && CanAppend(old(pending).value, chunk) ==> channel.sent == old(channel.sent)
      ensures !ok ==> groups == old(groups)
      ensures overflowed ==> old(Weight()) > MAX_U64
      ensures old(Smooth()) ==> ok
    {
      if pending.Some? && CanAppend(pending.value, chunk) {
        JoinPending(chunk);
        return true;
      }
      ok := FlushPcm();
      if ok {
        StartGroup(PcmOf(channel.sent), chunk, groups, pcmCount, pcmBytes);
        pending := Some(chunk);
        groups := groups + [[chunk]];
      }
    }

    /** The pending chunk grows by one that may follow it. */
    method JoinPending(chunk: Chunk)
      requires PcmKept() && valid && WellFormed(chunk) && pending.Some? && CanAppend(pending.value, chunk)
      modifies this`pending, this`groups
      ensures PcmKept() && pending == Some(Merge(old(pending).value, chunk))
      ensures Flatten(groups) == old(Flatten(groups)) + [chunk]
    {
      JoinGroup(PcmOf(channel.sent), pending.value, chunk, groups);
      var causes := AppendCauses(pending.value.causes, chunk.causes);
      pending := Some(pending.value.(
                        range := pending.value.range.(end := chunk.range.end),
                        bytes := pending.value.bytes + chunk.bytes,
                        discontinuities := pending.value.discontinuities + chunk.discontinuities,
                        causes := causes));
      groups := Joined(groups, chunk);
    }

    /** Cuts a block at the limit and coalesces what is left of it. */
    method TakeChunk(chunk: Chunk) returns (ok: bool)
      requires Valid() && valid && WellFormed(chunk) && Hashed(chunk)
      modifies this`valid, this`sequence, this`pending, this`pcmCount, this`pcmBytes, this`overflowed,
               this`overflowAt, this`groups,
               this`lastPcmEnd, channel
      ensures Valid() && ok == valid
      ensures ok <==>
                var kept := Below(chunk, pcmLimit, sha);
                kept == [] || Takes(kept[0], old(pending), old(sequence), old(channel.attempts), old(pcmBytes))
      ensures ok ==> lastPcmEnd == chunk.range.end
      ensures ok ==> Flatten(groups) == old(Flatten(groups)) + Below(chunk, pcmLimit, sha)
      ensures overflowed ==> old(Weight()) > MAX_U64
      ensures old(Smooth()) ==> ok
      ensures ok && Lasting(old(pending)) && chunk.range.begin < chunk.range.end ==> Lasting(pending)
    {
      ok := true;
      if chunk.range.begin < pcmLimit {
        var kept := CutAtLimit(chunk);
        ok := Append(kept);
      }
      if ok { lastPcmEnd := chunk.range.end; }
    }

    /** Takes in a PCM block: gives it its segment, cuts it at the limit and coalesces it. */
    method ConsumePcm(copied: Option<Chunk>) returns (ok: bool)
      requires Valid() && (copied.Some? ==> WellFormed(copied.value) && Hashed(copied.value))
      modifies this`valid, this`sequence, this`pending, this`pcmCount, this`pcmBytes, this`overflowed,
               this`overflowAt, this`groups,
               this`lastPcmEnd, this`segmentStarts, this`segment, this`consumedPcm, channel
      ensures Valid() && ok == valid && (ok ==> old(valid) && copied.Some?)
      ensures old(valid) ==>
                && consumedPcm == old(consumedPcm) + 1
                && (segmentStarts, segment) == SilentGate.Opened(old(segmentStarts), old(segment), old(consumedPcm))
      ensures copied.Some? ==> WellFormed(InSegment(copied.value, segment))
      ensures ok <==>
                && old(valid) && copied.Some?
                && var kept := Below(InSegment(copied.value, segment), pcmLimit, sha);
                   kept == [] || Takes(kept[0], old(pending), old(sequence), old(channel.attempts), old(pcmBytes))
      ensures ok ==> lastPcmEnd == copied.value.range.end
      ensures overflowed ==> old(overflowed) || (old(valid) && old(Weight()) > MAX_U64)
      ensures old(valid) && copied.Some? && old(Smooth()) ==> ok
      ensures ok && Lasting(old(pending)) && Lasting(copied) ==> Lasting(pending)
      ensures ok ==> WellFormed(InSegment(copied.value, segment))
                     && Flatten(groups) == old(Flatten(groups)) + Below(InSegment(copied.value, segment), pcmLimit, sha)
    {
      if copied.Some? { AllSegmentsOk(copied.value); }
      if !valid { return false; }
      AdvanceSegment();
      consumedPcm := consumedPcm + 1;
      ok := TakeCopied(copied);
    }

    /** A block that could not be copied ends the evidence; any other is given the segment. */
    method TakeCopied(copied: Option<Chunk>) returns (ok: bool)
      requires Valid() && valid && (copied.Some? ==> WellFormed(copied.value) && Hashed(copied.value))
      modifies this`valid, this`sequence, this`pending, this`pcmCount, this`pcmBytes, this`overflowed, this`overflowAt,
               this`groups, this`lastPcmEnd, channel
      ensures Valid() && ok == valid && (ok ==> copied.Some?)
      ensures copied.Some? ==> WellFormed(InSegment(copied.value, segment))
      ensures ok <==>
                && copied.Some?
                && var kept := Below(InSegment(copied.value, segment), pcmLimit, sha);
                   kept == [] || Takes(kept[0], old(pending), old(sequence), old(channel.attempts), old(pcmBytes))
      ensures ok ==> lastPcmEnd == copied.value.range.end
      ensures overflowed ==> old(Weight()) > MAX_U64
      ensures copied.Some? && old(Smooth()) ==> ok
      ensures ok && Lasting(old(pending)) && Lasting(copied) ==> Lasting(pending)
      ensures ok ==> WellFormed(InSegment(copied.value, segment))
                     && Flatten(groups) == old(Flatten(groups)) + Below(InSegment(copied.value, segment), pcmLimit, sha)
    {
      if copied.None? {
        valid := false;
        return false;
      }
      InSegmentOk(copied.value, segment);
      ok := TakeChunk(InSegment(copied.value, segment));
    }

    /** What has been taken in so far. */
    ghost function Now(): Intake
      reads this`segmentStarts, this`segment, this`consumedPcm, this`pcmLimit, this`groups
    {
      Intake(segmentStarts, segment, consumedPcm, pcmLimit, Flatten(groups))
    }

    method CallFact(call: Call<F>)
      requires Valid() && call.FactCall?
      modifies this, channel
      ensures Valid() && (valid ==> old(valid))
      ensures valid ==> accepted == old(accepted) + FactIn(call) && Now() == TakeIn(old(Now()), call, sha)
      ensures overflowed ==> old(overflowed) || (old(valid) && old(Weight()) > MAX_U64)
      ensures old(valid) && old(Smooth()) && Eager(call) ==> valid && Lasting(pending)
    {
      var _ := TakeFact(call.fact);
    }

    method CallPcm(call: Call<F>)
      requires Valid() && CallOk(call) && call.PcmCall?
      modifies this, channel
      ensures Valid() && (valid ==> old(valid))
      ensures valid ==> accepted == old(accepted) + FactIn(call) && Now() == TakeIn(old(Now()), call, sha)
      ensures overflowed ==> old(overflowed) || (old(valid) && old(Weight()) > MAX_U64)
      ensures old(valid) && old(Smooth()) && Eager(call) ==> valid && Lasting(pending)
    {
      var _ := ConsumePcm(call.copied);
    }

    method CallMessage(call: Call<F>)
      requires Valid() && (call.StatusCall? || call.TerminalCall?)
      modifies this, channel
      ensures Valid() && (valid ==> old(valid))
      ensures valid ==> accepted == old(accepted) + FactIn(call) && Now() == TakeIn(old(Now()), call, sha)
      ensures overflowed ==> old(overflowed) || (old(valid) && old(Weight()) > MAX_U64)
      ensures old(valid) && old(Smooth()) && Eager(call) ==> valid && Lasting(pending)
    {
      if call.StatusCall? {
        var _ := SendStatus(call.encodes);
      } else {
        var _ := SendTerminal(call.encodes);
      }
    }

    method CallSetting(call: Call<F>)
      requires Valid() && (call.SegmentCall? || call.LimitCall?)
      modifies this, channel
      ensures Valid() && (valid ==> old(valid))
      ensures valid ==> accepted == old(accepted) + FactIn(call) && Now() == TakeIn(old(Now()), call, sha)
      ensures overflowed ==> old(overflowed) || (old(valid) && old(Weight()) > MAX_U64)
      ensures old(valid) && old(Smooth()) && Eager(call) ==> valid && Lasting(pending)
    {
      if call.SegmentCall? {
        BeginSegment(call.forwarded);
      } else {
        SetPcmLimit(call.limit);
      }
    }

    method CallFlush(call: Call<F>)
      requires Valid() && call.FlushCall?
      modifies this, channel
      ensures Valid() && (valid ==> old(valid))
      ensures valid ==> accepted == old(accepted) + FactIn(call) && Now() == TakeIn(old(Now()), call, sha)
      ensures overflowed ==> old(overflowed) || (old(valid) && old(Weight()) > MAX_U64)
      ensures old(valid) && old(Smooth()) && Eager(call) ==> valid && Lasting(pending)
    {
      var _ := Flush(call.finalizePcm);
    }

    /** Answers one call. */
    method Answer(call: Call<F>)
      requires Valid() && CallOk(call)
      modifies this, channel
      ensures Valid() && (valid ==> old(valid))
      ensures valid ==> accepted == old(accepted) + FactIn(call) && Now() == TakeIn(old(Now()), call, sha)
      ensures overflowed ==> old(overflowed) || (old(valid) && old(Weight()) > MAX_U64)
      ensures old(valid) && old(Smooth()) && Eager(call) ==> valid && Lasting(pending)
    {
      if call.FactCall? {
        CallFact(call);
      } else if call.PcmCall? {
        CallPcm(call);
      } else if call.FlushCall? {
        CallFlush(call);
      } else if call.StatusCall? || call.TerminalCall? {
        CallMessage(call);
      } else {
        CallSetting(call);
      }
    }

    method RunCalls(calls: seq<Call<F>>)
      requires Valid() && valid && accepted == [] && groups == [] && pending == None
      requires segmentStarts == [] && segment == 0 && consumedPcm == 0 && pcmLimit == MAX_U64
      requires forall i :: 0 <= i < |calls| ==> CallOk(calls[i])
      modifies this, channel
      ensures Valid()
      ensures valid ==> accepted == FactsIn(calls)
      ensures valid ==> Now() == IntakeAfter(calls, sha)
      ensures overflowed ==> ByteCount(IntakeAfter(calls, sha).chunks) > MAX_U64
      ensures Unhindered(calls) ==> valid && Lasting(pending)
    {
      for i := 0 to |calls|
        invariant Valid()
        invariant valid ==> accepted == FactsIn(calls[..i])
        invariant valid ==> Now() == IntakeAfter(calls[..i], sha)
        invariant overflowed ==> ByteCount(IntakeAfter(calls[..i], sha).chunks) > MAX_U64
        invariant Unhindered(calls) ==> valid && Lasting(pending)
      {
        assert calls[..i + 1][..i] == calls[..i];
        IntakeGrows(calls, sha, i);
        IntakeOnlyGrows(calls, sha, i);
        Answer(calls[i]);
      }
      assert calls[..|calls|] == calls;
    }

    /** Over every run of calls, successful or not: while what counts fits 64 bits of bytes, the
        messages are numbered 2, 3, 4, … When the final flush succeeds, the facts sent are the
        facts offered, in order, and the PCM sent means, sample by sample, what was taken in
        below the limits. */
    method Run(calls: seq<Call<F>>) returns (ok: bool)
      requires Valid() && valid && accepted == [] && groups == [] && pending == None
      requires segmentStarts == [] && segment == 0 && consumedPcm == 0 && pcmLimit == MAX_U64
      requires forall i :: 0 <= i < |calls| ==> CallOk(calls[i])
      modifies this, channel
      ensures Unhindered(calls) ==> ok
      ensures ByteCount(IntakeAfter(calls, sha).chunks) <= MAX_U64 ==> Consecutive(channel.sent)
      ensures ok ==> Consecutive(channel.sent) && ByteCount(IntakeAfter(calls, sha).chunks) <= MAX_U64
      ensures ok ==> FactsOf(channel.sent) == FactsIn(calls)
      ensures ok ==> Carried(PcmOf(channel.sent), groups) && Flatten(groups) == IntakeAfter(calls, sha).chunks
      ensures ok ==> AllWellFormed(PcmOf(channel.sent)) && AllWellFormed(IntakeAfter(calls, sha).chunks)
                     && AllSamples(PcmOf(channel.sent)) == AllSamples(IntakeAfter(calls, sha).chunks)
    {
      RunCalls(calls);
      ok := Flush(true);
      if ok {
        SamplesSurvive(PcmOf(channel.sent), groups);
        BytesSurvive(PcmOf(channel.sent), groups);
      }
    }

    /** Nothing stands in the way of a run: a willing encoder, messages that fit, writes that go
        through, facts and blocks that can be copied, blocks of some length and bytes that fit. */
    ghost predicate Unhindered(calls: seq<Call<F>>)
      requires forall i :: 0 <= i < |calls| ==> CallOk(calls[i])
    {
      && Willing() && Fitting() && (forall i :: 0 <= i < |calls| ==> Eager(calls[i]))
      && ByteCount(IntakeAfter(calls, sha).chunks) <= MAX_U64
    }

    lemma SmoothSends()
      requires Valid() && valid && pending.Some? && Smooth()
      ensures Sendable(pending.value, sequence, channel.attempts, pcmBytes)
    {
      PendingWeighs(PcmOf(channel.sent), pending.value, groups, pcmCount, pcmBytes);
    }

    /** `encode_pcm_message`: a well-formed chunk of some length, hashed as it is. */
    predicate EncodesPcm(chunk: Chunk, n: nat) {
      && WellFormed(chunk) && n != 0 && chunk.range.begin != chunk.range.end
      && chunk.sha256.value == Some(sha(chunk.bytes))
      && pcmFits(chunk, n)
    }

    ghost predicate Sendable(chunk: Chunk, n: nat, attempt: nat, bytes: nat) {
      && chunk.range.begin != chunk.range.end
      && pcmFits(chunk.(sha256 := Field(Available, Some(sha(chunk.bytes)), "")), n)
      && channel.up(attempt)
      && bytes + |chunk.bytes| <= MAX_U64
    }

    /** The pending chunk is well formed, so the encoder takes it if it has length and fits. */
    lemma PendingEncodes()
      requires Valid() && valid && pending.Some?
      ensures var chunk := pending.value.(sha256 := Field(Available, Some(sha(pending.value.bytes)), ""));
              && WellFormed(pending.value) && SameButHash(chunk, pending.value)
              && (EncodesPcm(chunk, sequence) <==> chunk.range.begin != chunk.range.end && pcmFits(chunk, sequence))
    {
      var stream := Stream(PcmOf(channel.sent), pending);
      var chunk := pending.value.(sha256 := Field(Available, Some(sha(pending.value.bytes)), ""));
      assert Carries(stream[|stream| - 1], groups[|stream| - 1]);
      CarriedMeans(stream[|stream| - 1], groups[|stream| - 1]);
      HashIsNotMeaning(chunk, pending.value);
    }
  }

  /** What of a chunk counts: its part below the limit. */
  function Below(chunk: Chunk, limit: nat, sha: seq<byte> -> seq<byte>): seq<Chunk>
    requires WellFormed(chunk)
  {
    if chunk.range.begin >= limit then []
    else if chunk.range.end > limit then [Cut(chunk, limit, sha)]
    else [chunk]
  }

  function InSegment(chunk: Chunk, segment: nat): Chunk { chunk.(segment := segment) }

  lemma InSegmentOk(chunk: Chunk, segment: nat)
    requires WellFormed(chunk) && Hashed(chunk)
    ensures WellFormed(InSegment(chunk, segment)) && Hashed(InSegment(chunk, segment))
  {
  }

  lemma AllSegmentsOk(chunk: Chunk)
    requires WellFormed(chunk) && Hashed(chunk)
    ensures forall segment: nat :: WellFormed(InSegment(chunk, segment)) && Hashed(InSegment(chunk, segment))
  {
    forall segment: nat ensures WellFormed(InSegment(chunk, segment)) && Hashed(InSegment(chunk, segment)) {
      InSegmentOk(chunk, segment);
    }
  }

  /** The last group with one more chunk. */
  function Joined(groups: seq<seq<Chunk>>, chunk: Chunk): seq<seq<Chunk>>
    requires groups != []
  {
    groups[..|groups| - 1] + [groups[|groups| - 1] + [chunk]]
  }

  lemma JoinGroup(sent: seq<Chunk>, last: Chunk, chunk: Chunk, groups: seq<seq<Chunk>>)
    requires Carried(sent + [last], groups) && WellFormed(chunk) && CanAppend(last, chunk)
    ensures groups != []
    ensures Carried(sent + [Merge(last, chunk)], Joined(groups, chunk))
    ensures Flatten(Joined(groups, chunk)) == Flatten(groups) + [chunk]
  {
    var n := |groups| - 1;
    var before, after := sent + [last], sent + [Merge(last, chunk)];
    assert Carries(before[n], groups[n]);
    CarriesOneMore(last, groups[n], chunk);
    forall i | 0 <= i < |after| ensures Carries(after[i], Joined(groups, chunk)[i]) {
      if i < n { assert Carries(before[i], groups[i]); }
    }
    assert Joined(groups, chunk)[..n] == groups[..n];
  }

  lemma CarriesOneMore(m: Chunk, group: seq<Chunk>, chunk: Chunk)
    requires Carries(m, group) && WellFormed(chunk) && CanAppend(m, chunk)
    ensures Carries(Merge(m, chunk), group + [chunk])
  {
    assert (group + [chunk])[..|group|] == group;
  }

  lemma NewGroup(sent: seq<Chunk>, chunk: Chunk, groups: seq<seq<Chunk>>)
    requires Carried(sent, groups) && WellFormed(chunk) && Hashed(chunk)
    ensures Carried(sent + [chunk], groups + [[chunk]])
    ensures Flatten(groups + [[chunk]]) == Flatten(groups) + [chunk]
  {
    assert (groups + [[chunk]])[..|groups|] == groups;
    assert Carries(chunk, [chunk]);
    forall i | 0 <= i <= |sent| ensures Carries((sent + [chunk])[i], (groups + [[chunk]])[i]) {
      if i < |sent| { assert Carries(sent[i], groups[i]); }
    }
  }

  /** Hashing the last message again does not change what it carries. */
  lemma Rehashed(sent: seq<Chunk>, last: Chunk, chunk: Chunk, groups: seq<seq<Chunk>>)
    requires Carried(sent + [last], groups) && SameButHash(chunk, last)
    ensures Carried(sent + [chunk], groups)
  {
    forall i | 0 <= i < |sent| + 1 ensures Carries((sent + [chunk])[i], groups[i]) {
      assert Carries((sent + [last])[i], groups[i]);
    }
  }
}
