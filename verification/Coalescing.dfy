/**
 Coalescing PCM chunks into messages preserves their meaning: the samples, and what an audit
 finds (src/audio_qa_runtime_session.cpp, tools/audio_qa/audio_integrity.cpp).
 */
module Coalescing {
  import opened AudioChunks
  import opened AudioIntegrity
  import opened Collections

  /** Message i carries group i. */
  predicate Carried(messages: seq<Chunk>, groups: seq<seq<Chunk>>) {
    |messages| == |groups| && forall i :: 0 <= i < |messages| ==> Carries(messages[i], groups[i])
  }

  /** What a merged chunk keeps of its group: the shared identity, and both ends. */
  predicate Shape(m: Chunk, group: seq<Chunk>) {
    && group != [] && m.range.begin <= m.range.end
    && (forall i :: 0 <= i < |group| ==>
          && SameCapture(m, group[i]) && m.format == group[i].format && m.segment == group[i].segment
          && SameTimeline(m.range, group[i].range)
          && m.range.begin <= group[i].range.begin && group[i].range.end <= m.range.end)
    && m.range.begin == group[0].range.begin
    && m.range.end == group[|group| - 1].range.end
  }

  lemma {:induction false} GroupShape(group: seq<Chunk>)
    requires Mergeable(group) && AllWellFormed(group)
    ensures Shape(MergeAll(group), group)
    ensures forall i :: 1 <= i < |group| ==> group[i - 1].range.end == group[i].range.begin
  {
    if |group| > 1 {
      var rest := group[..|group| - 1];
      GroupShape(rest);
      ShapeOneMore(MergeAll(rest), rest, group[|group| - 1]);
      assert rest + [group[|group| - 1]] == group;
      forall i | 1 <= i < |group| ensures group[i - 1].range.end == group[i].range.begin {
        if i < |group| - 1 { assert rest[i - 1].range.end == rest[i].range.begin; }
      }
    } else {
      assert WellFormed(group[0]);
    }
  }

  lemma ShapeOneMore(m: Chunk, group: seq<Chunk>, c: Chunk)
    requires Shape(m, group) && CanAppend(m, c) && WellFormed(c)
    ensures Shape(Merge(m, c), group + [c])
  {
  }

  lemma CarriedShape(m: Chunk, group: seq<Chunk>)
    requires Carries(m, group)
    ensures Shape(m, group)
    ensures WellFormed(MergeAll(group))
    ensures m.discontinuities == MergeAll(group).discontinuities
    ensures forall i :: 1 <= i < |group| ==> group[i - 1].range.end == group[i].range.begin
  {
    GroupShape(group);
    GroupMeans(group);
  }

  lemma PairsAppend(a: seq<Chunk>, b: seq<Chunk>, mode: Continuity)
    ensures PairsOk(a + b, mode) <==>
            PairsOk(a, mode) && PairsOk(b, mode) && (a != [] && b != [] ==> PairOk(a[|a| - 1], b[0], mode))
  {
    var all := a + b;
    if PairsOk(all, mode) {
      forall i | 1 <= i < |a| ensures PairOk(a[i - 1], a[i], mode) { assert PairOk(all[i - 1], all[i], mode); }
      forall i | 1 <= i < |b| ensures PairOk(b[i - 1], b[i], mode) {
        assert PairOk(all[|a| + i - 1], all[|a| + i], mode);
      }
      if a != [] && b != [] { assert PairOk(all[|a| - 1], all[|a|], mode); }
    }
    if PairsOk(a, mode) && PairsOk(b, mode) && (a != [] && b != [] ==> PairOk(a[|a| - 1], b[0], mode)) {
      forall i | 1 <= i < |all| ensures PairOk(all[i - 1], all[i], mode) {
        if i < |a| {
          assert PairOk(a[i - 1], a[i], mode);
        } else if i > |a| {
          assert PairOk(b[i - |a| - 1], b[i - |a|], mode);
        }
      }
    }
  }

  /** Chunks merged into one message join without a fault, in either mode. */
  lemma GroupJoins(m: Chunk, group: seq<Chunk>, mode: Continuity)
    requires Carries(m, group)
    ensures PairsOk(group, mode)
  {
    CarriedShape(m, group);
    forall i | 1 <= i < |group| ensures PairOk(group[i - 1], group[i], mode) {
      assert group[i - 1].range.end == group[i].range.begin;
      assert group[i - 1].segment == m.segment == group[i].segment;
    }
  }

  /** A message joins the next one exactly as its last chunk joins the next first chunk. */
  lemma BoundaryJoin(m: Chunk, group: seq<Chunk>, n: Chunk, next: seq<Chunk>, mode: Continuity)
    requires Carries(m, group) && Carries(n, next)
    ensures JoinPcm(m, n, mode) == JoinPcm(group[|group| - 1], next[0], mode)
    ensures PairOk(m, n, mode) <==> PairOk(group[|group| - 1], next[0], mode)
  {
    CarriedShape(m, group);
    CarriedShape(n, next);
  }

  lemma {:induction false} FlattenEnd(messages: seq<Chunk>, groups: seq<seq<Chunk>>)
    requires Carried(messages, groups) && groups != []
    ensures Flatten(groups) != []
    ensures Flatten(groups)[|Flatten(groups)| - 1] == groups[|groups| - 1][|groups[|groups| - 1]| - 1]
    ensures |groups| <= |Flatten(groups)|
  {
    assert Carries(messages[|groups| - 1], groups[|groups| - 1]);
    if |groups| > 1 { FlattenEnd(messages[..|groups| - 1], groups[..|groups| - 1]); }
  }

  /** One more group: its joins, and the one with the message before it. */
  lemma JoinsOneMore(messages: seq<Chunk>, groups: seq<seq<Chunk>>, mode: Continuity)
    requires Carried(messages, groups) && groups != []
    ensures var n := |groups| - 1;
            PairsOk(Flatten(groups), mode) <==>
            PairsOk(Flatten(groups[..n]), mode) && (n > 0 ==> PairOk(messages[n - 1], messages[n], mode))
  {
    var n := |groups| - 1;
    CarriedPrefix(messages, groups);
    GroupJoins(messages[n], groups[n], mode);
    PairsAppend(Flatten(groups[..n]), groups[n], mode);
    if n > 0 {
      FlattenEnd(messages[..n], groups[..n]);
      CarriedPrefix(messages[..n], groups[..n]);
      BoundaryJoin(messages[n - 1], groups[n - 1], messages[n], groups[n], mode);
    }
  }

  lemma CarriedPrefix(messages: seq<Chunk>, groups: seq<seq<Chunk>>)
    requires Carried(messages, groups) && groups != []
    ensures Carried(messages[..|groups| - 1], groups[..|groups| - 1])
    ensures Carries(messages[|groups| - 1], groups[|groups| - 1])
  {
  }

  lemma PairsOneMore(cs: seq<Chunk>, mode: Continuity)
    requires cs != []
    ensures var n := |cs| - 1;
            PairsOk(cs, mode) <==> PairsOk(cs[..n], mode) && (n > 0 ==> PairOk(cs[n - 1], cs[n], mode))
  {
    PairsAppend(cs[..|cs| - 1], [cs[|cs| - 1]], mode);
    assert cs == cs[..|cs| - 1] + [cs[|cs| - 1]];
  }

  /** Every gap, overlap or reordering between chunks is found between messages, and no other. */
  lemma {:induction false} JoinsSurvive(messages: seq<Chunk>, groups: seq<seq<Chunk>>, mode: Continuity)
    requires Carried(messages, groups)
    ensures PairsOk(Flatten(groups), mode) <==> PairsOk(messages, mode)
  {
    if groups != [] {
      CarriedPrefix(messages, groups);
      JoinsSurvive(messages[..|groups| - 1], groups[..|groups| - 1], mode);
      JoinsStep(messages, groups, mode);
    }
  }

  lemma JoinsStep(messages: seq<Chunk>, groups: seq<seq<Chunk>>, mode: Continuity)
    requires Carried(messages, groups) && groups != []
    requires PairsOk(Flatten(groups[..|groups| - 1]), mode) <==> PairsOk(messages[..|groups| - 1], mode)
    ensures PairsOk(Flatten(groups), mode) <==> PairsOk(messages, mode)
  {
    JoinsOneMore(messages, groups, mode);
    PairsOneMore(messages, mode);
  }

  lemma CarriedMeans(m: Chunk, group: seq<Chunk>)
    requires Carries(m, group)
    ensures WellFormed(m) && AllWellFormed(group)
    ensures Samples(m) == AllSamples(group)
  {
    GroupMeans(group);
    HashIsNotMeaning(m, MergeAll(group));
  }

  /** Together the messages mean exactly the samples of all the chunks, in order. */
  lemma SamplesSurvive(messages: seq<Chunk>, groups: seq<seq<Chunk>>)
    requires Carried(messages, groups)
    ensures AllWellFormed(Flatten(groups)) && AllWellFormed(messages)
    ensures AllSamples(messages) == AllSamples(Flatten(groups))
  {
    MeaningSurvives(messages, groups);
  }

  ghost predicate SameMeaning(messages: seq<Chunk>, chunks: seq<Chunk>) {
    AllWellFormed(messages) && AllWellFormed(chunks) && AllSamples(messages) == AllSamples(chunks)
  }

  lemma {:induction false} MeaningSurvives(messages: seq<Chunk>, groups: seq<seq<Chunk>>)
    requires Carried(messages, groups)
    ensures SameMeaning(messages, Flatten(groups))
  {
    if groups != [] {
      var n := |groups| - 1;
      CarriedPrefix(messages, groups);
      MeaningSurvives(messages[..n], groups[..n]);
      MeaningOneMore(messages[..n], messages[n], Flatten(groups[..n]), groups[n]);
      assert messages == messages[..n] + [messages[n]];
    }
  }

  lemma MeaningOneMore(ms: seq<Chunk>, m: Chunk, cs: seq<Chunk>, group: seq<Chunk>)
    requires SameMeaning(ms, cs) && Carries(m, group)
    ensures SameMeaning(ms + [m], cs + group)
  {
    CarriedMeans(m, group);
    SamplesOneMore(ms, m, cs, group);
  }

  lemma SamplesOneMore(ms: seq<Chunk>, m: Chunk, cs: seq<Chunk>, group: seq<Chunk>)
    requires AllWellFormed(ms) && WellFormed(m) && AllWellFormed(cs) && AllWellFormed(group)
    requires AllSamples(ms) == AllSamples(cs) && Samples(m) == AllSamples(group)
    ensures AllWellFormed(ms + [m]) && AllWellFormed(cs + group)
    ensures AllSamples(ms + [m]) == AllSamples(cs + group)
  {
    SamplesAppend(cs, group);
    assert (ms + [m])[..|ms|] == ms;
  }

  // ---------------------------------------------------------------------------------------
  // The intervals an audit reports.
  // ---------------------------------------------------------------------------------------

  /** The reported intervals, without their block counts. */
  function Intervals(cs: seq<Chunk>): seq<Interval> {
    if cs == [] then [] else AddInterval(Intervals(cs[..|cs| - 1]), cs[|cs| - 1])
  }

  function AddInterval(intervals: seq<Interval>, c: Chunk): seq<Interval> {
    var n := |intervals|;
    if n == 0 || intervals[n - 1].segment != c.segment then intervals + [Interval(c.segment, c.range)]
    else intervals[..n - 1] + [intervals[n - 1].(samples := intervals[n - 1].samples.(end := c.range.end))]
  }

  function WithoutCounts(segments: seq<Segment>): (r: seq<Interval>)
    ensures |r| == |segments| && forall i :: 0 <= i < |r| ==> r[i] == segments[i].interval
  {
    seq(|segments|, i requires 0 <= i < |segments| => segments[i].interval)
  }

  lemma {:induction false} IntervalsOfSegments(cs: seq<Chunk>)
    ensures Intervals(cs) == WithoutCounts(Segments(cs))
  {
    if cs != [] {
      IntervalsOfSegments(cs[..|cs| - 1]);
      IntervalOfBlock(Segments(cs[..|cs| - 1]), cs[|cs| - 1]);
    }
  }

  /** One more block changes the segments and the intervals alike. */
  lemma IntervalOfBlock(before: seq<Segment>, c: Chunk)
    ensures WithoutCounts(AddBlock(before, c)) == AddInterval(WithoutCounts(before), c)
  {
    var n := |before|;
    var blocks, intervals := AddBlock(before, c), AddInterval(WithoutCounts(before), c);
    assert |blocks| == |intervals|;
    forall i | 0 <= i < |blocks| ensures blocks[i].interval == intervals[i] {
      if i < n - 1 { assert blocks[i] == before[i] && intervals[i] == WithoutCounts(before)[i]; }
    }
  }

  lemma IntervalTwice(intervals: seq<Interval>, m: Chunk, c: Chunk)
    requires m.segment == c.segment
    ensures AddInterval(AddInterval(intervals, m), c) == AddInterval(intervals, Merge(m, c))
  {
  }

  /** Adding the chunks of a group one by one leaves the interval their message would leave. */
  lemma {:induction false} GroupInterval(a: seq<Chunk>, group: seq<Chunk>)
    requires Mergeable(group)
    ensures Intervals(a + group) == AddInterval(Intervals(a), MergeAll(group))
  {
    var n := |group| - 1;
    IntervalsOneMore(a + group[..n], group[n]);
    assert a + group[..n] + [group[n]] == a + group;
    if n == 0 {
      assert a + group[..n] == a;
    } else {
      GroupInterval(a, group[..n]);
      IntervalTwice(Intervals(a), MergeAll(group[..n]), group[n]);
    }
  }

  lemma IntervalsOneMore(cs: seq<Chunk>, c: Chunk)
    ensures Intervals(cs + [c]) == AddInterval(Intervals(cs), c)
  {
    assert (cs + [c])[..|cs|] == cs;
  }

  lemma {:induction false} IntervalsSurvive(messages: seq<Chunk>, groups: seq<seq<Chunk>>)
    requires Carried(messages, groups)
    ensures Intervals(messages) == Intervals(Flatten(groups))
  {
    if groups != [] {
      var n := |groups| - 1;
      CarriedPrefix(messages, groups);
      IntervalsSurvive(messages[..n], groups[..n]);
      GroupInterval(Flatten(groups[..n]), groups[n]);
    }
  }

  // ---------------------------------------------------------------------------------------
  // The effects.
  // ---------------------------------------------------------------------------------------

  lemma {:induction false} GroupEffects(group: seq<Chunk>)
    requires Mergeable(group) && AllWellFormed(group) && AllEffectsOk(group)
    ensures EffectsOk(MergeAll(group))
  {
    if |group| > 1 {
      var n := |group| - 1;
      var rest := group[..n];
      GroupEffects(rest);
      GroupShape(rest);
      assert WellFormed(group[n]) && EffectsOk(group[n]);
      var m, before := MergeAll(group), MergeAll(rest);
      forall i | 0 <= i < |m.discontinuities| ensures EffectOk(m.discontinuities[i], m.range) {
        if i < |before.discontinuities| {
          assert EffectOk(before.discontinuities[i], before.range);
          assert before.range.end == group[n].range.begin;
        } else {
          assert EffectOk(group[n].discontinuities[i - |before.discontinuities|], group[n].range);
        }
      }
    } else {
      assert EffectsOk(group[0]);
    }
  }

  lemma {:induction false} EffectsSurvive(messages: seq<Chunk>, groups: seq<seq<Chunk>>)
    requires Carried(messages, groups) && AllEffectsOk(Flatten(groups))
    ensures AllEffectsOk(messages)
  {
    if groups != [] {
      var n := |groups| - 1;
      EffectsSplit(Flatten(groups[..n]), groups[n]);
      CarriedPrefix(messages, groups);
      EffectsSurvive(messages[..n], groups[..n]);
      MessageEffects(messages[n], groups[n]);
      EffectsSplit(messages[..n], [messages[n]]);
      WithLast(messages);
    }
  }

  lemma EffectsSplit(a: seq<Chunk>, b: seq<Chunk>)
    ensures AllEffectsOk(a + b) <==> AllEffectsOk(a) && AllEffectsOk(b)
  {
    if AllEffectsOk(a + b) {
      forall i | 0 <= i < |a| ensures EffectsOk(a[i]) { assert EffectsOk((a + b)[i]); }
      forall i | 0 <= i < |b| ensures EffectsOk(b[i]) { assert EffectsOk((a + b)[|a| + i]); }
    }
  }

  lemma MessageEffects(m: Chunk, group: seq<Chunk>)
    requires Carries(m, group) && AllEffectsOk(group)
    ensures EffectsOk(m)
  {
    GroupEffects(group);
    var whole := MergeAll(group);
    forall i | 0 <= i < |m.discontinuities| ensures EffectOk(m.discontinuities[i], m.range) {
      assert EffectOk(whole.discontinuities[i], whole.range);
    }
  }

  /** Blocks stored for the messages of a stream, numbered one after the other. */
  predicate StoredAs(blocks: seq<Stored>, chunks: seq<Chunk>) {
    |blocks| == |chunks| && Numbered(blocks)
    && forall i :: 0 <= i < |blocks| ==> blocks[i].Block? && blocks[i].chunk == chunks[i]
  }

  /** A stream that audits complete chunk by chunk audits complete message by message, with the
      same intervals; and a join fault of the chunks is always a fault of the messages. */
  lemma AuditSurvives(messages: seq<Chunk>, groups: seq<seq<Chunk>>, mode: Continuity,
                      sent: seq<Stored>, whole: seq<Stored>)
    requires Carried(messages, groups)
    requires StoredAs(sent, messages) && StoredAs(whole, Flatten(groups))
    ensures GoodPrefix(whole, |whole|, mode) ==> GoodPrefix(sent, |sent|, mode)
    ensures !PairsOk(Flatten(groups), mode) ==> !GoodPrefix(sent, |sent|, mode)
    ensures WithoutCounts(Segments(ChunksOf(sent))) == WithoutCounts(Segments(ChunksOf(whole)))
    ensures |sent| <= |whole|
  {
    assert ChunksOf(sent) == messages && ChunksOf(whole) == Flatten(groups);
    GoodMeans(sent, mode);
    GoodMeans(whole, mode);
    JoinsSurvive(messages, groups, mode);
    if AllEffectsOk(Flatten(groups)) { EffectsSurvive(messages, groups); }
    IntervalsSurvive(messages, groups);
    IntervalsOfSegments(messages);
    IntervalsOfSegments(Flatten(groups));
    if groups != [] { FlattenEnd(messages, groups); }
  }
}
