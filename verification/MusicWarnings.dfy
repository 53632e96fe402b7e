/** The aggregator of music warnings (src/music_warning.h). */
module MusicWarnings {
  import opened Collections
  import opened Options
  import opened Throttle
  import opened ConditionKeys

  datatype Code = AnalysisObsolete | GamePauseUnobservable | AnalysisLimit | IncompatiblePack | RestoreFailedRolledBack

  datatype Warning = Warning(code: Code, identity: string, detail: string, time: nat)

  datatype Aggregate = Aggregate(warning: Warning, count: nat, first: nat, last: nat, detail: string)

  datatype State = State(last: Warning, lastEmit: nat, pending: nat, pendingFirst: nat, pendingLast: nat)

  function CodeName(code: Code): string {
    match code
    case AnalysisObsolete => "analysis_obsolete"
    case GamePauseUnobservable => "game_pause_uno" + "bservable"
    case AnalysisLimit => "analysis_limit"
    case IncompatiblePack => "incompatible_pack"
    case RestoreFailedRolledBack => "restore_failed" + "_rolled_back"
  }

  function Key(w: Warning): string {
    Joined(CodeName(w.code), w.identity, w.detail)
  }

  lemma CodeNamesDiffer(a: Code, b: Code)
    requires CodeName(a)[0] == CodeName(b)[0] && CodeName(a)[9] == CodeName(b)[9]
    ensures a == b
  {
  }

  predicate SameCondition(a: Warning, b: Warning) {
    a.code == b.code && a.identity == b.identity && a.detail == b.detail
  }

  lemma SharedKeySharesCode(a: Warning, b: Warning)
    requires Key(a) == Key(b)
    ensures a.code == b.code
  {
    assert CodeName(a.code)[0] == Key(a)[0] == Key(b)[0] == CodeName(b.code)[0];
    assert CodeName(a.code)[9] == Key(a)[9] == Key(b)[9] == CodeName(b.code)[9];
    CodeNamesDiffer(a.code, b.code);
  }

  /** No other condition has the key of w. */
  ghost predicate OwnKey(w: Warning) {
    forall v :: Key(v) == Key(w) ==> SameCondition(w, v)
  }

  /** The key of a warning is its condition's own exactly when neither its identity nor its
      detail holds a NUL. */
  lemma KeyIsTheCondition(w: Warning)
    ensures OwnKey(w) <==> NUL !in w.identity && NUL !in w.detail
  {
    if NUL !in w.identity && NUL !in w.detail {
      forall v | Key(v) == Key(w) ensures SameCondition(w, v) {
        NoOtherCut(w, v);
      }
    } else {
      var v := OtherCut(w);
      assert Key(v) == Key(w);
    }
  }

  lemma NoOtherCut(w: Warning, v: Warning)
    requires Key(v) == Key(w) && NUL !in w.identity && NUL !in w.detail
    ensures SameCondition(w, v)
  {
    SharedKeySharesCode(w, v);
    var code := CodeName(w.code);
    if |v.identity| < |w.identity| {
      TwoCuts(code, v.identity, v.detail, w.identity, w.detail);
    } else if |w.identity| < |v.identity| {
      TwoCuts(code, w.identity, w.detail, v.identity, v.detail);
    } else {
      OneCut(code, w.identity, w.detail, v.identity, v.detail);
    }
  }

  lemma OtherCut(w: Warning) returns (v: Warning)
    requires NUL in w.identity || NUL in w.detail
    ensures Key(v) == Key(w) && !SameCondition(w, v)
  {
    if NUL in w.identity {
      var i :| 0 <= i < |w.identity| && w.identity[i] == NUL;
      CutAt(w.identity, i);
      NulCollides(CodeName(w.code), w.identity[..i], w.identity[i + 1..], w.detail);
      v := w.(identity := w.identity[..i], detail := w.identity[i + 1..] + [NUL] + w.detail);
    } else {
      var i :| 0 <= i < |w.detail| && w.detail[i] == NUL;
      CutAt(w.detail, i);
      NulCollides(CodeName(w.code), w.identity, w.detail[..i], w.detail[i + 1..]);
      v := w.(identity := w.identity + [NUL] + w.detail[..i], detail := w.detail[i + 1..]);
    }
  }

  function PendingAggregate(s: State): Aggregate {
    Aggregate(s.last, s.pending, s.pendingFirst, s.pendingLast, s.last.detail)
  }

  /** The aggregate of a group: its last warning, its size and the times of its two ends. */
  function Summary(g: seq<Warning>): Aggregate
    requires g != []
  {
    Aggregate(g[|g| - 1], |g|, g[0].time, g[|g| - 1].time, g[|g| - 1].detail)
  }

  ghost predicate SlotOk(s: State, slot: Slot<Warning>) {
    && s.lastEmit == slot.lastEmit && s.pending == |slot.waiting|
    && (s.pending > 0 ==> PendingAggregate(s) == Summary(slot.waiting))
  }

  ghost predicate KeyOk(states: map<string, State>, k: string, t: Track<Warning>) {
    if k in states then t.slot.Some? && SlotOk(states[k], t.slot.value) else t.slot.None?
  }

  ghost predicate Summarises(a: Aggregate, g: seq<Warning>) {
    g != [] && a == Summary(g)
  }

  class MusicWarningAggregator {
    const minimumPeriod: nat
    var states: map<string, State>
    var fullTrace: seq<Warning>
    ghost var calls: seq<Call<Warning>>

    ghost function TrackOf(k: string): Track<Warning>
      reads this`calls
    {
      After(Rule(minimumPeriod, false), calls, k)
    }

    ghost predicate Valid()
      reads this`calls, this`states
    {
      forall k :: KeyOk(states, k, TrackOf(k))
    }

    constructor (minimumPeriod: nat)
      ensures Valid() && calls == [] && fullTrace == [] && this.minimumPeriod == minimumPeriod
    {
      this.minimumPeriod, states, fullTrace, calls := minimumPeriod, map[], [], [];
    }

    /** An aggregate comes out exactly when the key's throttle emits a group, and is its summary. */
    method Push(w: Warning) returns (r: Option<Aggregate>)
      requires Valid()
      modifies this
      ensures Valid() && fullTrace == old(fullTrace) + [w]
      ensures calls == old(calls) + [Throttle.Push(Key(w), w.time, w)]
      ensures forall k :: k != Key(w) ==> TrackOf(k) == old(TrackOf(k))
      ensures r.None? ==> TrackOf(Key(w)).groups == old(TrackOf(Key(w))).groups
      ensures r.Some? ==> exists g ::
                            TrackOf(Key(w)).groups == old(TrackOf(Key(w))).groups + [g] && Summarises(r.value, g)
    {
      fullTrace := fullTrace + [w];
      var key := Key(w);
      ghost var t := TrackOf(key);
      assert KeyOk(states, key, t);
      ghost var was, before := states, calls;
      assert forall k :: KeyOk(was, k, TrackOf(k)) ==> KeyOk(was, k, After(Rule(minimumPeriod, false), before, k));
      PushMovesOneKey(Rule(minimumPeriod, false), calls, Throttle.Push(key, w.time, w));
      calls := calls + [Throttle.Push(key, w.time, w)];
      if key !in states || w.time < states[key].lastEmit {
        states := states[key := State(w, w.time, 0, 0, 0)];
        assert Summarises(Aggregate(w, 1, w.time, w.time, w.detail), [w]);
        r := Some(Aggregate(w, 1, w.time, w.time, w.detail));
      } else {
        var state := Counted(states[key], w, t.slot.value.waiting);
        if w.time - state.lastEmit < minimumPeriod {
          states := states[key := state];
          r := None;
        } else {
          assert Summarises(PendingAggregate(state), t.slot.value.waiting + [w]);
          states := states[key := state.(pending := 0, lastEmit := w.time)];
          r := Some(PendingAggregate(state));
        }
      }
      assert KeyOk(states, key, TrackOf(key));
      OthersKeep(was, before, key);
    }

    lemma OthersKeep(was: map<string, State>, before: seq<Call<Warning>>, key: string)
      requires forall k :: KeyOk(was, k, After(Rule(minimumPeriod, false), before, k))
      requires forall k :: k != key ==> TrackOf(k) == After(Rule(minimumPeriod, false), before, k)
      requires key in states && states == was[key := states[key]]
      requires KeyOk(states, key, TrackOf(key))
      ensures Valid()
    {
      forall k ensures KeyOk(states, k, TrackOf(k)) {
        if k != key { assert KeyOk(was, k, After(Rule(minimumPeriod, false), before, k)); }
      }
    }

    /** Every key with something waiting gives one aggregate of all of it, in some order of the
        keys; nothing waits afterwards. The time of the close is not used. */
    method Close(time: nat) returns (result: seq<Aggregate>, ghost order: seq<string>)
      requires Valid()
      modifies this`states, this`calls
      ensures Valid() && calls == old(calls) + [Throttle.Close(time)]
      ensures Lists(order, Due(old(states))) && |result| == |order|
      ensures forall i :: 0 <= i < |order| ==> Summarises(result[i], Waiting(old(TrackOf(order[i]))))
      ensures forall k :: Waiting(TrackOf(k)) == []
    {
      var closed;
      closed, result, order := EmitAll(states);
      states := closed;
      forall i | 0 <= i < |order| ensures Summarises(result[i], Waiting(old(TrackOf(order[i])))) {
        assert KeyOk(old(states), order[i], old(TrackOf(order[i])));
      }
      forall k ensures KeyOk(states, k, After(Rule(minimumPeriod, false), calls + [Throttle.Close(time)], k))
               ensures Waiting(After(Rule(minimumPeriod, false), calls + [Throttle.Close(time)], k)) == [] {
        OneMoreCall(Rule(minimumPeriod, false), calls, Throttle.Close(time), k);
        assert KeyOk(old(states), k, TrackOf(k));
      }
      calls := calls + [Throttle.Close(time)];
    }
  }

  /** The state with one more push pending. */
  method Counted(s: State, w: Warning, ghost waiting: seq<Warning>) returns (r: State)
    requires SlotOk(s, Slot(s.lastEmit, waiting))
    ensures SlotOk(r, Slot(s.lastEmit, waiting + [w]))
  {
    r := s;
    if r.pending == 0 { r := r.(pendingFirst := w.time); }
    r := r.(pending := r.pending + 1, pendingLast := w.time, last := w);
  }

  /** The keys with something pending. */
  ghost function Due(states: map<string, State>): set<string> {
    set k | k in states && states[k].pending > 0
  }

  method EmitAll(states: map<string, State>)
    returns (closed: map<string, State>, result: seq<Aggregate>, ghost order: seq<string>)
    ensures closed == map k | k in states :: states[k].(pending := 0)
    ensures Lists(order, Due(states)) && |result| == |order|
    ensures forall i :: 0 <= i < |order| ==> result[i] == PendingAggregate(states[order[i]])
  {
    closed, result, order := states, [], [];
    var todo := states.Keys;
    ghost var done: set<string> := {};
    while todo != {}
      invariant todo <= states.Keys == closed.Keys
      invariant forall k :: k in closed ==> closed[k] == if k in todo then states[k] else states[k].(pending := 0)
      invariant |result| == |order| && Lists(order, done)
      invariant forall k :: k in done <==> k in Due(states) && k !in todo
      invariant forall i :: 0 <= i < |order| ==> result[i] == PendingAggregate(states[order[i]])
      decreases |todo|
    {
      ghost var some := SomeElement(todo);
      assert some in todo;
      var k :| k in todo;
      var state := states[k];
      if state.pending != 0 {
        result := result + [PendingAggregate(state)];
        ListsOneMore(order, done, k);
        order, done := order + [k], done + {k};
        closed := closed[k := state.(pending := 0)];
      }
      todo := todo - {k};
    }
    assert done == Due(states);
  }
}
