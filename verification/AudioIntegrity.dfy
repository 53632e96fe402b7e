/**
 The audit of captured PCM (tools/audio_qa/audio_integrity.cpp) over blocks already decoded,
 and what coalescing chunks into messages does to it.
 */
module AudioIntegrity {
  import opened AudioChunks
  import opened Integers
  import opened Options

  const MAX_BLOCKS: nat := 65536

  datatype Continuity = Single | PerSegment

  datatype Join = Continues | StartsSegment | SampleGap | SampleOverlapOrReorder | SegmentOutOfOrder
  {
    predicate Broken() { SampleGap? || SampleOverlapOrReorder? || SegmentOutOfOrder? }
  }

  function JoinPcm(previous: Chunk, next: Chunk, mode: Continuity): Join {
    if mode.PerSegment? && next.segment < previous.segment then SegmentOutOfOrder
    else if mode.PerSegment? && next.segment > previous.segment then StartsSegment
    else if next.range.begin > previous.range.end then SampleGap
    else if next.range.begin < previous.range.end then SampleOverlapOrReorder
    else if next.segment == previous.segment then Continues
    else StartsSegment
  }

  /** A block as it was read back: its stored sequence and its chunk, or nothing readable. */
  datatype Stored = Unreadable | Block(sequence: nat, chunk: Chunk)

  datatype IssueKind =
    | EmptyCapture | TooManyBlocks | BlockUnreadable | BlockSequenceDiscontinuity
    | CaptureIdentityChanged | FormatChanged | TimelineChanged | JoinBroken(join: Join)
    | AmbiguousEffectBoundary | EffectOutsideBlock

  datatype Issue = Issue(kind: IssueKind, block: nat, range: Option<Range>, expected: nat, observed: nat)

  datatype Interval = Interval(segment: nat, samples: Range)

  datatype Segment = Segment(interval: Interval, blocks: nat)

  datatype Audit = Audit(
    complete: bool, verifiedBlocks: nat, effects: nat, lastSample: Option<nat>,
    firstIssue: Option<Issue>, segments: seq<Segment>)

  predicate SameCapture(a: Chunk, b: Chunk) { a.runId == b.runId && a.capturePoint == b.capturePoint }

  predicate SameTimeline(a: Range, b: Range) { a.timeline == b.timeline && a.rate == b.rate }

  /** The number that must follow, or 0 when there is none. */
  function Follower(sequence: nat): nat { if sequence == MAX_U64 then 0 else sequence + 1 }

  function JoinIssue(join: Join, at: nat, a: Chunk, b: Chunk): Issue {
    match join
    case SampleGap =>
      Issue(JoinBroken(join), at, Some(a.range.(begin := a.range.end, end := b.range.begin)), 0, 0)
    case SegmentOutOfOrder => Issue(JoinBroken(join), at, Some(b.range), a.segment, b.segment)
    case _ =>
      Issue(JoinBroken(join), at, Some(a.range.(begin := b.range.begin, end := a.range.end)), 0, 0)
  }

  /** What is wrong between a block and the one before it. */
  function PairFault(a: Stored, b: Stored, at: nat, mode: Continuity): Option<Issue>
    requires a.Block? && b.Block?
  {
    if Follower(a.sequence) == 0 || b.sequence != Follower(a.sequence) then
      Some(Issue(BlockSequenceDiscontinuity, at, Some(b.chunk.range), Follower(a.sequence), b.sequence))
    else if !SameCapture(a.chunk, b.chunk) then
      Some(Issue(CaptureIdentityChanged, at, Some(b.chunk.range), 0, 0))
    else if a.chunk.format != b.chunk.format then
      Some(Issue(FormatChanged, at, Some(b.chunk.range), 0, 0))
    else if !SameTimeline(a.chunk.range, b.chunk.range) then
      Some(Issue(TimelineChanged, at, Some(b.chunk.range), 0, 0))
    else
      var join := JoinPcm(a.chunk, b.chunk, mode);
      if join.Broken() then Some(JoinIssue(join, at, a.chunk, b.chunk)) else None
  }

  predicate Ambiguous(d: Discontinuity) {
    d.output.availability.Unavailable? || (d.kind.InsertedSilence? && d.output.availability.NotApplicable?)
  }

  predicate Inside(r: Range, outer: Range) {
    SameTimeline(r, outer) && outer.begin <= r.begin && r.end <= outer.end
  }

  predicate EffectOk(d: Discontinuity, outer: Range) {
    !Ambiguous(d) && (d.output.value.Some? ==> Inside(d.output.value.value, outer))
  }

  function EffectFault(d: Discontinuity, outer: Range, at: nat): Option<Issue> {
    if Ambiguous(d) then Some(Issue(AmbiguousEffectBoundary, at, Some(d.affected), 0, 0))
    else if d.output.value.Some? && !Inside(d.output.value.value, outer) then
      Some(Issue(EffectOutsideBlock, at, d.output.value, 0, 0))
    else None
  }

  /** The first wrong effect of a block. */
  function EffectsFault(ds: seq<Discontinuity>, outer: Range, at: nat): Option<Issue> {
    if ds == [] then None
    else
      var before := EffectsFault(ds[..|ds| - 1], outer, at);
      if before.Some? then before else EffectFault(ds[|ds| - 1], outer, at)
  }

  predicate EffectsOk(c: Chunk) {
    forall i :: 0 <= i < |c.discontinuities| ==> EffectOk(c.discontinuities[i], c.range)
  }

  function EffectCount(ds: seq<Discontinuity>): nat {
    if ds == [] then 0
    else EffectCount(ds[..|ds| - 1]) + if ds[|ds| - 1].output.value.Some? then 1 else 0
  }

  /** The first thing wrong with block i, the earlier ones being right. */
  function BlockFault(blocks: seq<Stored>, i: nat, mode: Continuity): Option<Issue>
    requires i < |blocks| && (i > 0 ==> blocks[i - 1].Block?)
  {
    if blocks[i].Unreadable? then Some(Issue(BlockUnreadable, i, None, 0, 0))
    else if i > 0 && PairFault(blocks[i - 1], blocks[i], i, mode).Some? then
      PairFault(blocks[i - 1], blocks[i], i, mode)
    else EffectsFault(blocks[i].chunk.discontinuities, blocks[i].chunk.range, i)
  }

  /** The blocks before `n` hold: each is readable and right where it stands. */
  predicate GoodPrefix(blocks: seq<Stored>, n: nat, mode: Continuity)
    requires n <= |blocks|
  {
    && (forall i :: 0 <= i < n ==> blocks[i].Block?)
    && (forall i :: 0 <= i < n ==> BlockFault(blocks, i, mode).None?)
  }

  function ChunksOf(blocks: seq<Stored>): (cs: seq<Chunk>)
    requires forall i :: 0 <= i < |blocks| ==> blocks[i].Block?
    ensures |cs| == |blocks| && forall i :: 0 <= i < |cs| ==> cs[i] == blocks[i].chunk
  {
    seq(|blocks|, i requires 0 <= i < |blocks| => blocks[i].chunk)
  }

  /** One interval per run of blocks of the same segment. */
  function Segments(cs: seq<Chunk>): seq<Segment> {
    if cs == [] then [] else AddBlock(Segments(cs[..|cs| - 1]), cs[|cs| - 1])
  }

  function AddBlock(segments: seq<Segment>, c: Chunk): seq<Segment> {
    var n := |segments|;
    if n == 0 || segments[n - 1].interval.segment != c.segment then
      segments + [Segment(Interval(c.segment, c.range), 1)]
    else
      var last := segments[n - 1];
      var samples := last.interval.samples.(end := c.range.end);
      segments[..n - 1] + [Segment(last.interval.(samples := samples), last.blocks + 1)]
  }

  function EffectTotal(cs: seq<Chunk>): nat {
    if cs == [] then 0 else EffectTotal(cs[..|cs| - 1]) + EffectCount(cs[|cs| - 1].discontinuities)
  }

  method AuditEffects(c: Chunk, at: nat) returns (issue: Option<Issue>, counted: nat)
    ensures issue == EffectsFault(c.discontinuities, c.range, at)
    ensures issue.None? ==> counted == EffectCount(c.discontinuities)
  {
    var ds := c.discontinuities;
    counted := 0;
    for i := 0 to |ds|
      invariant EffectsFault(ds[..i], c.range, at).None?
      invariant counted == EffectCount(ds[..i])
    {
      assert ds[..i + 1][..i] == ds[..i];
      issue := EffectFault(ds[i], c.range, at);
      if issue.Some? {
        FaultStays(ds, c.range, at, i + 1);
        return;
      }
      if ds[i].output.value.Some? { counted := counted + 1; }
    }
    assert ds[..|ds|] == ds;
    issue := None;
  }

  method AuditBlock(blocks: seq<Stored>, i: nat, mode: Continuity) returns (fault: Option<Issue>, counted: nat)
    requires i < |blocks| && (i > 0 ==> blocks[i - 1].Block?)
    ensures fault == BlockFault(blocks, i, mode)
    ensures fault.None? ==> blocks[i].Block? && counted == EffectCount(blocks[i].chunk.discontinuities)
  {
    if blocks[i].Unreadable? {
      return Some(Issue(BlockUnreadable, i, None, 0, 0)), 0;
    }
    if i > 0 {
      fault := PairFault(blocks[i - 1], blocks[i], i, mode);
      if fault.Some? { return fault, 0; }
    }
    fault, counted := AuditEffects(blocks[i].chunk, i);
  }

  lemma {:induction false} FaultStays(ds: seq<Discontinuity>, outer: Range, at: nat, n: nat)
    requires n <= |ds| && EffectsFault(ds[..n], outer, at).Some?
    ensures EffectsFault(ds, outer, at) == EffectsFault(ds[..n], outer, at)
  {
    if n == |ds| {
      assert ds[..n] == ds;
    } else {
      assert ds[..|ds| - 1][..n] == ds[..n];
      FaultStays(ds[..|ds| - 1], outer, at, n);
    }
  }

  /** What the audit holds after n good blocks. */
  function Progress(blocks: seq<Stored>, n: nat): Audit
    requires n <= |blocks| && forall i :: 0 <= i < n ==> blocks[i].Block?
  {
    var cs := ChunksOf(blocks[..n]);
    Audit(false, n, EffectTotal(cs), if n == 0 then None else Some(blocks[n - 1].chunk.range.end), None, Segments(cs))
  }

  lemma NoProgress(blocks: seq<Stored>)
    ensures Progress(blocks, 0) == Audit(false, 0, 0, None, None, [])
  {
    assert ChunksOf(blocks[..0]) == [];
  }

  lemma GoodOneMore(blocks: seq<Stored>, n: nat, mode: Continuity)
    requires n < |blocks| && GoodPrefix(blocks, n, mode) && blocks[n].Block? && BlockFault(blocks, n, mode).None?
    ensures GoodPrefix(blocks, n + 1, mode)
  {
  }

  lemma ProgressOneMore(blocks: seq<Stored>, n: nat)
    requires n < |blocks| && forall i :: 0 <= i <= n ==> blocks[i].Block?
    ensures var p, c := Progress(blocks, n), blocks[n].chunk;
            Progress(blocks, n + 1) == Audit(false, n + 1, p.effects + EffectCount(c.discontinuities),
                                             Some(c.range.end), None, AddBlock(p.segments, c))
  {
    assert ChunksOf(blocks[..n + 1])[..n] == ChunksOf(blocks[..n]);
  }

  /** The audit verifies the longest good prefix: it is complete exactly when every block of a
      capture of allowed size is right, and otherwise names the first thing wrong. */
  method AuditAudioIntegrity(blocks: seq<Stored>, mode: Continuity) returns (audit: Audit)
    ensures audit.verifiedBlocks <= |blocks| && GoodPrefix(blocks, audit.verifiedBlocks, mode)
    ensures audit.complete <==> 0 < |blocks| <= MAX_BLOCKS && GoodPrefix(blocks, |blocks|, mode)
    ensures audit.complete ==> audit.verifiedBlocks == |blocks| && audit.firstIssue.None?
    ensures blocks == [] ==> audit.firstIssue == Some(Issue(EmptyCapture, 0, None, 0, 0))
    ensures |blocks| > MAX_BLOCKS ==>
              audit.verifiedBlocks == 0 && audit.firstIssue == Some(Issue(TooManyBlocks, 0, None, 0, 0))
    ensures 0 < |blocks| <= MAX_BLOCKS && !audit.complete ==>
              && audit.verifiedBlocks < |blocks|
              && audit.firstIssue == BlockFault(blocks, audit.verifiedBlocks, mode)
              && audit.firstIssue.Some?
              && Explains(blocks, audit.verifiedBlocks, mode, audit.firstIssue.value)
    ensures audit.segments == Segments(ChunksOf(blocks[..audit.verifiedBlocks]))
    ensures audit.lastSample == if audit.verifiedBlocks == 0 then None
                                else Some(blocks[audit.verifiedBlocks - 1].chunk.range.end)
    ensures audit.complete ==> audit.effects == EffectTotal(ChunksOf(blocks))
  {
    audit := Audit(false, 0, 0, None, None, []);
    if blocks == [] { return audit.(firstIssue := Some(Issue(EmptyCapture, 0, None, 0, 0))); }
    if |blocks| > MAX_BLOCKS { return audit.(firstIssue := Some(Issue(TooManyBlocks, 0, None, 0, 0))); }
    var fault;
    audit, fault := AuditBlocks(blocks, mode);
    assert blocks[..|blocks|] == blocks;
    if fault.Some? { IssueIsExplained(blocks, audit.verifiedBlocks, mode, fault.value); }
    audit := audit.(firstIssue := fault, complete := fault.None?);
  }

  /** The loop over the blocks: it stops at the first that is wrong. */
  method AuditBlocks(blocks: seq<Stored>, mode: Continuity) returns (audit: Audit, fault: Option<Issue>)
    ensures audit.verifiedBlocks <= |blocks| && GoodPrefix(blocks, audit.verifiedBlocks, mode)
    ensures fault.None? ==> audit.verifiedBlocks == |blocks| && audit == Progress(blocks, |blocks|)
    ensures fault.Some? ==> audit.verifiedBlocks < |blocks| && fault == BlockFault(blocks, audit.verifiedBlocks, mode)
    ensures audit == Progress(blocks, audit.verifiedBlocks).(effects := audit.effects)
  {
    audit := Audit(false, 0, 0, None, None, []);
    fault := None;
    NoProgress(blocks);
    var i := 0;
    while i < |blocks| && fault.None?
      invariant 0 <= i <= |blocks| && GoodPrefix(blocks, i, mode)
      invariant fault.None? ==> audit == Progress(blocks, i)
      invariant fault.Some? ==> i < |blocks| && fault == BlockFault(blocks, i, mode)
      invariant audit == Progress(blocks, i).(effects := audit.effects)
      decreases |blocks| - i, fault.None?
    {
      var counted;
      fault, counted := AuditBlock(blocks, i, mode);
      if fault.None? {
        ProgressOneMore(blocks, i);
        GoodOneMore(blocks, i, mode);
        var c := blocks[i].chunk;
        audit := Audit(false, i + 1, audit.effects + counted, Some(c.range.end), None, AddBlock(audit.segments, c));
        i := i + 1;
      } else {
        audit := audit.(effects := audit.effects + counted);
      }
    }
  }

  // ---------------------------------------------------------------------------------------
  // What a complete audit says about the capture.
  // ---------------------------------------------------------------------------------------

  predicate PairOk(a: Chunk, b: Chunk, mode: Continuity) {
    && SameCapture(a, b) && a.format == b.format && SameTimeline(a.range, b.range)
    && !JoinPcm(a, b, mode).Broken()
  }

  predicate PairsOk(cs: seq<Chunk>, mode: Continuity) {
    forall i :: 1 <= i < |cs| ==> PairOk(cs[i - 1], cs[i], mode)
  }

  predicate AllEffectsOk(cs: seq<Chunk>) {
    forall i :: 0 <= i < |cs| ==> EffectsOk(cs[i])
  }

  predicate Follows(a: Stored, b: Stored) {
    a.Block? && b.Block? && a.sequence != MAX_U64 && b.sequence == a.sequence + 1
  }

  predicate Numbered(blocks: seq<Stored>) {
    forall i :: 1 <= i < |blocks| ==> Follows(blocks[i - 1], blocks[i])
  }

  lemma {:induction false} EffectsFaultMeans(ds: seq<Discontinuity>, outer: Range, at: nat)
    ensures EffectsFault(ds, outer, at).None? <==> forall i :: 0 <= i < |ds| ==> EffectOk(ds[i], outer)
  {
    if ds != [] {
      EffectsFaultMeans(ds[..|ds| - 1], outer, at);
      assert forall i :: 0 <= i < |ds| - 1 ==> ds[..|ds| - 1][i] == ds[i];
    }
  }

  lemma BlockFaultMeans(blocks: seq<Stored>, i: nat, mode: Continuity)
    requires i < |blocks| && forall k :: 0 <= k < |blocks| ==> blocks[k].Block?
    ensures BlockFault(blocks, i, mode).None? <==>
              && EffectsOk(blocks[i].chunk)
              && (i > 0 ==> Follows(blocks[i - 1], blocks[i]) && PairOk(blocks[i - 1].chunk, blocks[i].chunk, mode))
  {
    EffectsFaultMeans(blocks[i].chunk.discontinuities, blocks[i].chunk.range, i);
  }

  // ---------------------------------------------------------------------------------------
  // Every answer of the audit, read off the blocks' own fields.
  // ---------------------------------------------------------------------------------------

  /** Two blocks whose samples can be compared: numbered one after the other, of one capture, one
      format and one timeline. */
  predicate Comparable(a: Stored, b: Stored) {
    && Follows(a, b)
    && a.chunk.runId == b.chunk.runId && a.chunk.capturePoint == b.chunk.capturePoint
    && a.chunk.format == b.chunk.format
    && a.chunk.range.timeline == b.chunk.range.timeline && a.chunk.range.rate == b.chunk.range.rate
  }

  /** A later segment may start anywhere, if the capture is audited per segment. */
  predicate Excused(a: Chunk, b: Chunk, mode: Continuity) {
    mode.PerSegment? && a.segment < b.segment
  }

  /** Neither a gap, an overlap nor a segment that came back. */
  predicate JoinsWell(a: Stored, b: Stored, mode: Continuity) {
    && Comparable(a, b)
    && (mode.PerSegment? ==> a.chunk.segment <= b.chunk.segment)
    && (Excused(a.chunk, b.chunk, mode) || a.chunk.range.end == b.chunk.range.begin)
  }

  /** Nobody can say where the effect is. */
  predicate Nowhere(d: Discontinuity) {
    || d.output.availability == Unavailable
    || (d.kind == InsertedSilence && d.output.availability == NotApplicable)
  }

  /** The effect is said to be on another timeline, or not within the block. */
  predicate Astray(d: Discontinuity, outer: Range) {
    && !Nowhere(d) && d.output.value.Some?
    && var r := d.output.value.value;
       r.timeline != outer.timeline || r.rate != outer.rate || r.begin < outer.begin || outer.end < r.end
  }

  /** Effect j is the first wrong one. */
  predicate FirstWrong(ds: seq<Discontinuity>, outer: Range, j: nat) {
    && j < |ds| && (Nowhere(ds[j]) || Astray(ds[j], outer))
    && forall k :: 0 <= k < j ==> !Nowhere(ds[k]) && !Astray(ds[k], outer)
  }

  predicate Says(issue: Issue, range: Option<Range>, expected: nat, observed: nat) {
    issue.range == range && issue.expected == expected && issue.observed == observed
  }

  /** What makes each issue the first one of block b, after block a. */
  ghost predicate PairExplains(a: Stored, b: Stored, mode: Continuity, issue: Issue)
    requires a.Block? && b.Block?
  {
    var r, s := a.chunk.range, b.chunk.range;
    match issue.kind
    case BlockSequenceDiscontinuity =>
      !Follows(a, b) && Says(issue, Some(s), if a.sequence == MAX_U64 then 0 else a.sequence + 1, b.sequence)
    case CaptureIdentityChanged =>
      && Follows(a, b) && Says(issue, Some(s), 0, 0)
      && (a.chunk.runId != b.chunk.runId || a.chunk.capturePoint != b.chunk.capturePoint)
    case FormatChanged =>
      && Follows(a, b) && a.chunk.runId == b.chunk.runId && a.chunk.capturePoint == b.chunk.capturePoint
      && a.chunk.format != b.chunk.format && Says(issue, Some(s), 0, 0)
    case TimelineChanged =>
      && Follows(a, b) && a.chunk.runId == b.chunk.runId && a.chunk.capturePoint == b.chunk.capturePoint
      && a.chunk.format == b.chunk.format
      && (r.timeline != s.timeline || r.rate != s.rate) && Says(issue, Some(s), 0, 0)
    case JoinBroken(SegmentOutOfOrder) =>
      && Comparable(a, b) && mode.PerSegment? && b.chunk.segment < a.chunk.segment
      && Says(issue, Some(s), a.chunk.segment, b.chunk.segment)
    case JoinBroken(SampleGap) =>
      && Comparable(a, b) && (mode.PerSegment? ==> a.chunk.segment == b.chunk.segment)
      && r.end < s.begin && Says(issue, Some(Range(r.timeline, r.rate, r.end, s.begin)), 0, 0)
    case JoinBroken(SampleOverlapOrReorder) =>
      && Comparable(a, b) && (mode.PerSegment? ==> a.chunk.segment == b.chunk.segment)
      && s.begin < r.end && Says(issue, Some(Range(r.timeline, r.rate, s.begin, r.end)), 0, 0)
    case _ => false
  }

  /** What makes each issue the one of effect j, the first wrong one of its block. */
  predicate EffectSays(ds: seq<Discontinuity>, outer: Range, j: nat, issue: Issue) {
    && FirstWrong(ds, outer, j)
    && match issue.kind
       case AmbiguousEffectBoundary => Nowhere(ds[j]) && Says(issue, Some(ds[j].affected), 0, 0)
       case EffectOutsideBlock => Astray(ds[j], outer) && Says(issue, ds[j].output.value, 0, 0)
       case _ => false
  }

  ghost predicate EffectExplains(c: Chunk, issue: Issue) {
    exists j: nat :: EffectSays(c.discontinuities, c.range, j, issue)
  }

  /** What makes an issue the first one of block i, the earlier blocks being right. */
  ghost predicate Explains(blocks: seq<Stored>, i: nat, mode: Continuity, issue: Issue)
    requires i < |blocks| && (i > 0 ==> blocks[i - 1].Block?)
  {
    && issue.block == i
    && if issue.kind.BlockUnreadable? then blocks[i].Unreadable? && Says(issue, None, 0, 0)
       else
         && blocks[i].Block?
         && ((i > 0 && PairExplains(blocks[i - 1], blocks[i], mode, issue))
             || ((i > 0 ==> JoinsWell(blocks[i - 1], blocks[i], mode)) && EffectExplains(blocks[i].chunk, issue)))
  }

  lemma PairAnswer(a: Stored, b: Stored, at: nat, mode: Continuity, issue: Issue)
    requires a.Block? && b.Block?
    ensures PairFault(a, b, at, mode) == Some(issue) <==> issue.block == at && PairExplains(a, b, mode, issue)
    ensures PairFault(a, b, at, mode) == None <==> JoinsWell(a, b, mode)
  {
  }

  lemma {:induction false} EffectsAnswer(ds: seq<Discontinuity>, outer: Range, at: nat) returns (j: nat)
    ensures EffectsFault(ds, outer, at).Some? ==> FirstWrong(ds, outer, j)
    ensures EffectsFault(ds, outer, at).Some? ==>
              EffectsFault(ds, outer, at) ==
              Some(if Nowhere(ds[j]) then Issue(AmbiguousEffectBoundary, at, Some(ds[j].affected), 0, 0)
                   else Issue(EffectOutsideBlock, at, ds[j].output.value, 0, 0))
    ensures EffectsFault(ds, outer, at).None? ==> forall k :: 0 <= k < |ds| ==> !Nowhere(ds[k]) && !Astray(ds[k], outer)
  {
    j := 0;
    if ds != [] {
      var n := |ds| - 1;
      j := EffectsAnswer(ds[..n], outer, at);
      if EffectsFault(ds[..n], outer, at).None? {
        j := n;
        assert forall k :: 0 <= k < n ==> ds[..n][k] == ds[k];
      }
    }
  }

  lemma EffectAnswer(c: Chunk, at: nat, issue: Issue)
    ensures EffectsFault(c.discontinuities, c.range, at) == Some(issue) <==>
            issue.block == at && EffectExplains(c, issue)
  {
    var ds := c.discontinuities;
    var j := EffectsAnswer(ds, c.range, at);
    if EffectsFault(ds, c.range, at) == Some(issue) {
      assert EffectSays(ds, c.range, j, issue);
    }
    if issue.block == at && EffectExplains(c, issue) {
      var k: nat :| EffectSays(ds, c.range, k, issue);
      OneFirstWrong(ds, c.range, j, k, at);
    }
  }

  lemma OneFirstWrong(ds: seq<Discontinuity>, outer: Range, j: nat, k: nat, at: nat)
    requires EffectsFault(ds, outer, at).Some? ==> FirstWrong(ds, outer, j)
    requires EffectsFault(ds, outer, at).None? ==>
               forall i :: 0 <= i < |ds| ==> !Nowhere(ds[i]) && !Astray(ds[i], outer)
    requires FirstWrong(ds, outer, k)
    ensures EffectsFault(ds, outer, at).Some? && j == k
  {
  }

  /** The first issue of a block is the one its own fields and those of the block before make it,
      and no other. */
  lemma IssueIsExplained(blocks: seq<Stored>, i: nat, mode: Continuity, issue: Issue)
    requires i < |blocks| && (i > 0 ==> blocks[i - 1].Block?)
    ensures BlockFault(blocks, i, mode) == Some(issue) <==> Explains(blocks, i, mode, issue)
  {
    if blocks[i].Block? {
      if i > 0 { PairAnswer(blocks[i - 1], blocks[i], i, mode, issue); }
      EffectAnswer(blocks[i].chunk, i, issue);
    }
  }

  /** What a gap or an overlap reports is exactly the samples in between, and there are some. */
  lemma JoinRangeIsNotEmpty(a: Stored, b: Stored, mode: Continuity, issue: Issue)
    requires a.Block? && b.Block? && PairExplains(a, b, mode, issue)
    requires issue.kind == JoinBroken(SampleGap) || issue.kind == JoinBroken(SampleOverlapOrReorder)
    ensures issue.range.Some? && issue.range.value.begin < issue.range.value.end
    ensures issue.kind == JoinBroken(SampleGap) ==>
              issue.range.value.begin == a.chunk.range.end && issue.range.value.end == b.chunk.range.begin
    ensures issue.kind == JoinBroken(SampleOverlapOrReorder) ==>
              issue.range.value.begin == b.chunk.range.begin && issue.range.value.end == a.chunk.range.end
  {
  }

  /** Two blocks without a fault continue one segment or start another. */
  lemma JoinAnswer(a: Chunk, b: Chunk, mode: Continuity)
    ensures JoinPcm(a, b, mode) == Continues <==> a.segment == b.segment && a.range.end == b.range.begin
    ensures JoinPcm(a, b, mode) == StartsSegment <==>
            Excused(a, b, mode) || (mode.Single? && a.segment != b.segment && a.range.end == b.range.begin)
  {
  }

  /** A capture is good exactly when its blocks are numbered without a gap, agree on identity,
      format and timeline, join, and place every effect inside its own block. */
  lemma GoodMeans(blocks: seq<Stored>, mode: Continuity)
    requires forall k :: 0 <= k < |blocks| ==> blocks[k].Block?
    ensures GoodPrefix(blocks, |blocks|, mode) <==>
            Numbered(blocks) && PairsOk(ChunksOf(blocks), mode) && AllEffectsOk(ChunksOf(blocks))
  {
    var cs := ChunksOf(blocks);
    if GoodPrefix(blocks, |blocks|, mode) {
      forall i | 0 <= i < |blocks|
        ensures EffectsOk(cs[i]) && (i > 0 ==> Follows(blocks[i - 1], blocks[i]) && PairOk(cs[i - 1], cs[i], mode))
      {
        BlockFaultMeans(blocks, i, mode);
      }
    }
    if Numbered(blocks) && PairsOk(cs, mode) && AllEffectsOk(cs) {
      forall i | 0 <= i < |blocks| ensures BlockFault(blocks, i, mode).None? {
        BlockFaultMeans(blocks, i, mode);
        assert EffectsOk(cs[i]);
        assert i > 0 ==> PairOk(cs[i - 1], cs[i], mode);
      }
    }
  }

  /** Frames of PCM that belong to a segment. */
  function SegmentLength(cs: seq<Chunk>, segment: nat): int {
    if cs == [] then 0
    else SegmentLength(cs[..|cs| - 1], segment)
         + if cs[|cs| - 1].segment == segment then cs[|cs| - 1].range.end - cs[|cs| - 1].range.begin else 0
  }

  predicate Increasing(segments: seq<Segment>) {
    forall i, j :: 0 <= i < j < |segments| ==> segments[i].interval.segment < segments[j].interval.segment
  }

  /** The reported interval is as long as all the blocks of its segment together. */
  predicate Accounted(s: Segment, cs: seq<Chunk>) {
    s.interval.samples.end - s.interval.samples.begin == SegmentLength(cs, s.interval.segment)
  }

  predicate AllAccounted(segments: seq<Segment>, cs: seq<Chunk>) {
    forall k :: 0 <= k < |segments| ==> Accounted(segments[k], cs)
  }

  /** The last interval ends where the last block does. */
  predicate Ends(segments: seq<Segment>, c: Chunk) {
    && segments != []
    && segments[|segments| - 1].interval.segment == c.segment
    && segments[|segments| - 1].interval.samples.end == c.range.end
  }

  lemma {:induction false} NoneOfLater(cs: seq<Chunk>, segment: nat)
    requires forall i :: 0 <= i < |cs| ==> cs[i].segment < segment
    ensures SegmentLength(cs, segment) == 0
  {
    if cs != [] { NoneOfLater(cs[..|cs| - 1], segment); }
  }

  lemma {:induction false} SegmentsNeverFall(cs: seq<Chunk>, i: nat)
    requires PairsOk(cs, PerSegment) && i < |cs|
    ensures cs[i].segment <= cs[|cs| - 1].segment
    decreases |cs| - i
  {
    if i < |cs| - 1 {
      assert PairOk(cs[i + 1 - 1], cs[i + 1], PerSegment);
      SegmentsNeverFall(cs, i + 1);
    }
  }

  /** In an inspection whose blocks join, the reported segments strictly increase and each
      interval is as long as all the blocks of its segment together. */
  lemma {:induction false} SegmentsAreIntervals(cs: seq<Chunk>)
    requires PairsOk(cs, PerSegment)
    ensures Increasing(Segments(cs)) && AllAccounted(Segments(cs), cs)
    ensures cs != [] ==> Ends(Segments(cs), cs[|cs| - 1])
  {
    if cs != [] {
      var rest, last := cs[..|cs| - 1], cs[|cs| - 1];
      assert PairsOk(rest, PerSegment);
      SegmentsAreIntervals(rest);
      if rest == [] || rest[|rest| - 1].segment != last.segment {
        forall i | 0 <= i < |rest| ensures rest[i].segment < last.segment {
          SegmentsNeverFall(rest, i);
          assert PairOk(cs[|cs| - 1 - 1], cs[|cs| - 1], PerSegment);
        }
        NoneOfLater(rest, last.segment);
        NewSegment(cs);
      } else {
        assert PairOk(cs[|cs| - 1 - 1], cs[|cs| - 1], PerSegment);
        SameSegment(cs);
      }
    }
  }

  lemma NewSegment(cs: seq<Chunk>)
    requires cs != []
    requires var rest, last := cs[..|cs| - 1], cs[|cs| - 1];
             && Increasing(Segments(rest)) && AllAccounted(Segments(rest), rest)
             && (rest != [] ==> Ends(Segments(rest), rest[|rest| - 1]) && rest[|rest| - 1].segment < last.segment)
             && SegmentLength(rest, last.segment) == 0
    ensures Increasing(Segments(cs)) && AllAccounted(Segments(cs), cs) && Ends(Segments(cs), cs[|cs| - 1])
  {
    var rest, last := cs[..|cs| - 1], cs[|cs| - 1];
    var before, after := Segments(rest), Segments(cs);
    assert after == before + [Segment(Interval(last.segment, last.range), 1)];
    forall k | 0 <= k < |after| ensures Accounted(after[k], cs) {
      if k < |before| { assert Accounted(before[k], rest) && before[k].interval.segment < last.segment; }
    }
  }

  lemma SameSegment(cs: seq<Chunk>)
    requires |cs| >= 2
    requires var rest, last := cs[..|cs| - 1], cs[|cs| - 1];
             && Increasing(Segments(rest)) && AllAccounted(Segments(rest), rest)
             && Ends(Segments(rest), rest[|rest| - 1])
             && rest[|rest| - 1].segment == last.segment && rest[|rest| - 1].range.end == last.range.begin
    ensures Increasing(Segments(cs)) && AllAccounted(Segments(cs), cs) && Ends(Segments(cs), cs[|cs| - 1])
  {
    var rest, last := cs[..|cs| - 1], cs[|cs| - 1];
    var before, after := Segments(rest), Segments(cs);
    GrownSegment(before, last);
    forall k | 0 <= k < |after| ensures Accounted(after[k], cs) {
      SegmentGrows(before, rest, last, cs, k);
    }
    assert Increasing(after);
  }

  /** A block of the last segment changes nothing but the end and the count of that segment. */
  lemma GrownSegment(before: seq<Segment>, c: Chunk)
    requires before != [] && before[|before| - 1].interval.segment == c.segment
    ensures var after, n := AddBlock(before, c), |before| - 1;
            && |after| == |before|
            && (forall k :: 0 <= k < n ==> after[k] == before[k])
            && after[n].interval.segment == c.segment
            && after[n].interval.samples == before[n].interval.samples.(end := c.range.end)
            && (forall k :: 0 <= k < |after| ==> after[k].interval.segment == before[k].interval.segment)
  {
  }

  lemma SegmentGrows(before: seq<Segment>, rest: seq<Chunk>, last: Chunk, cs: seq<Chunk>, k: nat)
    requires cs != [] && rest == cs[..|cs| - 1] && last == cs[|cs| - 1] && rest != []
    requires Increasing(before) && AllAccounted(before, rest) && Ends(before, rest[|rest| - 1])
    requires rest[|rest| - 1].segment == last.segment && rest[|rest| - 1].range.end == last.range.begin
    requires k < |before|
    ensures |AddBlock(before, last)| == |before| && Accounted(AddBlock(before, last)[k], cs)
  {
    GrownSegment(before, last);
    assert Accounted(before[k], rest);
    if k < |before| - 1 { assert before[k].interval.segment < before[|before| - 1].interval.segment; }
  }
}
