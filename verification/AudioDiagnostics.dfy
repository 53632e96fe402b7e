/** The aggregator of audio diagnostics (src/audio_diagnostic.cpp). */
module AudioDiagnostics {
  import opened Collections
  import opened Options
  import opened Throttle
  import opened ConditionKeys

  datatype Code = UnexpectedRestart | WindowEnd | InvalidFile | OutputFailure

  datatype Diagnostic = Diagnostic(
    code: Code, identity: string, track: string, cause: string,
    runtimeVersion: string, engineVersion: string, time: nat)

  datatype Aggregate = Aggregate(diagnostic: Diagnostic, count: nat, period: nat)

  datatype State = State(last: Diagnostic, lastEmit: nat, pending: nat)

  function CodeName(code: Code): string {
    match code
    case UnexpectedRestart => "audio.unexpected" + "_restart"
    case WindowEnd => "audio.window_end"
    case InvalidFile => "audio.invalid_" + "file"
    case OutputFailure => "audio.output_" + "failure"
  }

  predicate ValidDiagnostic(d: Diagnostic) {
    d.identity != [] && d.track != [] && d.cause != [] && d.runtimeVersion != [] && d.engineVersion != []
  }

  function Key(d: Diagnostic): string {
    Joined(CodeName(d.code), d.identity, d.cause)
  }

  lemma CodeNamesDiffer(a: Code, b: Code)
    requires CodeName(a)[6] == CodeName(b)[6]
    ensures a == b
  {
  }

  predicate SameCondition(a: Diagnostic, b: Diagnostic) {
    a.code == b.code && a.identity == b.identity && a.cause == b.cause
  }

  lemma SharedKeySharesCode(a: Diagnostic, b: Diagnostic)
    requires Key(a) == Key(b)
    ensures a.code == b.code
  {
    assert CodeName(a.code)[6] == Key(a)[6] == Key(b)[6] == CodeName(b.code)[6];
    CodeNamesDiffer(a.code, b.code);
  }

  /** No other condition an accepted diagnostic can name has the key of d. */
  ghost predicate OwnKey(d: Diagnostic) {
    forall e :: ValidDiagnostic(e) && Key(e) == Key(d) ==> SameCondition(d, e)
  }

  /** No NUL could be taken for the separator: a cut leaves both parts nonempty. */
  predicate Unmistakable(d: Diagnostic)
    requires ValidDiagnostic(d)
  {
    NUL !in d.identity[1..] && NUL !in d.cause[..|d.cause| - 1]
  }

  /** The key of a diagnostic is its condition's own exactly when its identity holds no NUL
      after its first character and its cause none before its last. */
  lemma KeyIsTheCondition(d: Diagnostic)
    requires ValidDiagnostic(d)
    ensures OwnKey(d) <==> Unmistakable(d)
  {
    if Unmistakable(d) {
      forall e | ValidDiagnostic(e) && Key(e) == Key(d) ensures SameCondition(d, e) {
        NoOtherCut(d, e);
      }
    } else {
      var e := OtherCut(d);
      assert ValidDiagnostic(e) && Key(e) == Key(d);
    }
  }

  lemma NoOtherCut(d: Diagnostic, e: Diagnostic)
    requires ValidDiagnostic(d) && ValidDiagnostic(e) && Key(e) == Key(d) && Unmistakable(d)
    ensures SameCondition(d, e)
  {
    SharedKeySharesCode(d, e);
    if |d.identity| != |e.identity| {
      OtherLengthMistakes(d, e);
    } else {
      OneCut(CodeName(d.code), d.identity, d.cause, e.identity, e.cause);
    }
  }

  lemma OtherLengthMistakes(d: Diagnostic, e: Diagnostic)
    requires ValidDiagnostic(d) && ValidDiagnostic(e) && Key(e) == Key(d) && d.code == e.code
    requires |d.identity| != |e.identity|
    ensures !Unmistakable(d)
  {
    var code := CodeName(d.code);
    if |e.identity| < |d.identity| {
      TwoCuts(code, e.identity, e.cause, d.identity, d.cause);
      assert d.identity[1..][|e.identity| - 1] == NUL;
    } else {
      TwoCuts(code, d.identity, d.cause, e.identity, e.cause);
      assert d.cause[..|d.cause| - 1][|e.identity| - |d.identity| - 1] == NUL;
    }
  }

  lemma OtherCut(d: Diagnostic) returns (e: Diagnostic)
    requires ValidDiagnostic(d) && !Unmistakable(d)
    ensures ValidDiagnostic(e) && Key(e) == Key(d) && !SameCondition(d, e)
  {
    if NUL in d.identity[1..] {
      var k :| 0 <= k < |d.identity| - 1 && d.identity[1..][k] == NUL;
      var i := k + 1;
      CutAt(d.identity, i);
      NulCollides(CodeName(d.code), d.identity[..i], d.identity[i + 1..], d.cause);
      e := d.(identity := d.identity[..i], cause := d.identity[i + 1..] + [NUL] + d.cause);
    } else {
      var i :| 0 <= i < |d.cause| - 1 && d.cause[..|d.cause| - 1][i] == NUL;
      CutAt(d.cause, i);
      NulCollides(CodeName(d.code), d.identity, d.cause[..i], d.cause[i + 1..]);
      e := d.(identity := d.identity + [NUL] + d.cause[..i], cause := d.cause[i + 1..]);
    }
  }

  function Elapsed(s: State, time: nat): nat {
    if time >= s.lastEmit then time - s.lastEmit else 0
  }

  function Closed(s: State, time: nat): State {
    if s.pending == 0 then s else s.(pending := 0, lastEmit := time)
  }

  ghost predicate SlotOk(s: State, slot: Slot<Diagnostic>) {
    && s.lastEmit == slot.lastEmit && s.pending == |slot.waiting|
    && (s.pending > 0 ==> s.last == slot.waiting[s.pending - 1])
  }

  ghost predicate KeyOk(states: map<string, State>, k: string, t: Track<Diagnostic>) {
    if k in states then t.slot.Some? && SlotOk(states[k], t.slot.value) else t.slot.None?
  }

  /** What an aggregate says of the group it stands for. */
  ghost predicate Summarises(a: Aggregate, g: seq<Diagnostic>) {
    g != [] && a.count == |g| && a.diagnostic == g[|g| - 1]
  }

  /** The time since the key's last emission; 0 for its first, or when time went back. */
  function SinceEmission(t: Track<Diagnostic>, time: nat): nat {
    if t.slot.None? || time < t.slot.value.lastEmit then 0 else time - t.slot.value.lastEmit
  }

  class AudioDiagnosticAggregator {
    const minimumPeriod: nat
    var states: map<string, State>
    /** The accepted calls so far. */
    ghost var calls: seq<Call<Diagnostic>>

    ghost function TrackOf(k: string): Track<Diagnostic>
      reads this`calls
    {
      After(Rule(minimumPeriod, true), calls, k)
    }

    ghost predicate Valid()
      reads this
    {
      forall k :: KeyOk(states, k, TrackOf(k))
    }

    constructor (minimumPeriod: nat)
      ensures Valid() && calls == [] && this.minimumPeriod == minimumPeriod
    {
      this.minimumPeriod, states, calls := minimumPeriod, map[], [];
    }

    /** An invalid diagnostic leaves no trace. Of a valid one, an aggregate comes out exactly
        when the key's throttle emits a group, and it sums that group up. */
    method Push(d: Diagnostic) returns (r: Option<Aggregate>)
      requires Valid()
      modifies this
      ensures Valid()
      ensures !ValidDiagnostic(d) ==> r == None && unchanged(this)
      ensures ValidDiagnostic(d) ==> calls == old(calls) + [Throttle.Push(Key(d), d.time, d)]
      ensures forall k :: k != Key(d) ==> TrackOf(k) == old(TrackOf(k))
      ensures r.None? ==> TrackOf(Key(d)).groups == old(TrackOf(Key(d))).groups
      ensures r.Some? ==> r.value.period == SinceEmission(old(TrackOf(Key(d))), d.time)
      ensures r.Some? ==> exists g ::
                            TrackOf(Key(d)).groups == old(TrackOf(Key(d))).groups + [g] && Summarises(r.value, g)
    {
      if !ValidDiagnostic(d) { return None; }
      var key := Key(d);
      ghost var t := TrackOf(key);
      assert KeyOk(states, key, t);
      ghost var was, before := states, calls;
      assert forall k :: KeyOk(was, k, TrackOf(k)) ==> KeyOk(was, k, After(Rule(minimumPeriod, true), before, k));
      PushMovesOneKey(Rule(minimumPeriod, true), calls, Throttle.Push(key, d.time, d));
      calls := calls + [Throttle.Push(key, d.time, d)];
      if key !in states {
        states := states[key := State(d, d.time, 0)];
        assert Summarises(Aggregate(d, 1, 0), [d]);
        r := Some(Aggregate(d, 1, 0));
      } else {
        var state := states[key];
        if d.time < state.lastEmit {
          states := states[key := State(d, d.time, 0)];
          assert Summarises(Aggregate(d, 1, 0), [d]);
          r := Some(Aggregate(d, 1, 0));
        } else {
          var elapsed := d.time - state.lastEmit;
          if elapsed < minimumPeriod {
            states := states[key := State(d, state.lastEmit, state.pending + 1)];
            r := None;
          } else {
            states := states[key := State(d, d.time, 0)];
            assert Summarises(Aggregate(d, state.pending + 1, elapsed), t.slot.value.waiting + [d]);
            r := Some(Aggregate(d, state.pending + 1, elapsed));
          }
        }
      }
      assert KeyOk(states, key, TrackOf(key));
      OthersKeep(was, before, key);
    }

    lemma OthersKeep(was: map<string, State>, before: seq<Call<Diagnostic>>, key: string)
      requires forall k :: KeyOk(was, k, After(Rule(minimumPeriod, true), before, k))
      requires forall k :: k != key ==> TrackOf(k) == After(Rule(minimumPeriod, true), before, k)
      requires key in states && states == was[key := states[key]]
      requires KeyOk(states, key, TrackOf(key))
      ensures Valid()
    {
      forall k ensures KeyOk(states, k, TrackOf(k)) {
        if k != key { assert KeyOk(was, k, After(Rule(minimumPeriod, true), before, k)); }
      }
    }

    /** Every key with something waiting gives one aggregate of all of it, in some order of the
        keys; nothing waits afterwards. */
    method Close(time: nat) returns (result: seq<Aggregate>, ghost order: seq<string>)
      requires Valid()
      modifies this
      ensures Valid() && calls == old(calls) + [Throttle.Close(time)]
      ensures Lists(order, Due(old(states))) && |result| == |order|
      ensures forall i :: 0 <= i < |order| ==>
                            result[i] == CloseAggregate(old(states)[order[i]], time)
      ensures forall i :: 0 <= i < |order| ==>
                            Summarises(result[i], Waiting(old(TrackOf(order[i]))))
      ensures forall k :: Waiting(TrackOf(k)) == []
    {
      var closed;
      closed, result, order := EmitAll(states, time);
      states := closed;
      forall i | 0 <= i < |order| ensures Summarises(result[i], Waiting(old(TrackOf(order[i])))) {
        assert KeyOk(old(states), order[i], old(TrackOf(order[i])));
      }
      forall k ensures KeyOk(states, k, After(Rule(minimumPeriod, true), calls + [Throttle.Close(time)], k))
               ensures Waiting(After(Rule(minimumPeriod, true), calls + [Throttle.Close(time)], k)) == [] {
        OneMoreCall(Rule(minimumPeriod, true), calls, Throttle.Close(time), k);
        assert KeyOk(old(states), k, TrackOf(k));
      }
      calls := calls + [Throttle.Close(time)];
    }
  }

  function CloseAggregate(s: State, time: nat): Aggregate {
    Aggregate(s.last, s.pending, Elapsed(s, time))
  }

  /** The keys with something pending. */
  ghost function Due(states: map<string, State>): set<string> {
    set k | k in states && states[k].pending > 0
  }

  method EmitAll(states: map<string, State>, time: nat)
    returns (closed: map<string, State>, result: seq<Aggregate>, ghost order: seq<string>)
    ensures closed == map k | k in states :: Closed(states[k], time)
    ensures Lists(order, Due(states)) && |result| == |order|
    ensures forall i :: 0 <= i < |order| ==> result[i] == CloseAggregate(states[order[i]], time)
  {
    closed, result, order := states, [], [];
    var todo := states.Keys;
    ghost var done: set<string> := {};
    while todo != {}
      invariant todo <= states.Keys == closed.Keys
      invariant forall k :: k in closed ==> closed[k] == if k in todo then states[k] else Closed(states[k], time)
      invariant |result| == |order| && Lists(order, done)
      invariant forall k :: k in done <==> k in Due(states) && k !in todo
      invariant forall i :: 0 <= i < |order| ==> result[i] == CloseAggregate(states[order[i]], time)
      decreases |todo|
    {
      ghost var some := SomeElement(todo);
      assert some in todo;
      var k :| k in todo;
      var state := states[k];
      if state.pending != 0 {
        result := result + [CloseAggregate(state, time)];
        ListsOneMore(order, done, k);
        order, done := order + [k], done + {k};
        closed := closed[k := Closed(state, time)];
      }
      todo := todo - {k};
    }
    assert done == Due(states);
  }
}
