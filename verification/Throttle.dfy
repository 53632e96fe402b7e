/**
 What the two warning aggregators do for one key: groups of pushes are summarised, at most one
 group per period. The audio diagnostics (src/audio_diagnostic.cpp) count the period anew from a
 close; the music warnings (src/music_warning.h) do not.
 */
module Throttle {
  import opened Collections
  import opened Options

  datatype Rule = Rule(period: nat, closeMoves: bool)

  datatype Call<V> = Push(key: string, time: nat, value: V) | Close(time: nat)

  /** The last emission and the pushes waiting for the next one. */
  datatype Slot<V> = Slot(lastEmit: nat, waiting: seq<V>)

  /** The slot of a key, the groups emitted for it so far and how many pushes no group holds. */
  datatype Track<V> = Track(slot: Option<Slot<V>>, groups: seq<seq<V>>, lost: nat)

  function OnPush<V>(rule: Rule, t: Track<V>, time: nat, value: V): Track<V> {
    if t.slot.None? then Track(Some(Slot(time, [])), t.groups + [[value]], t.lost)
    else
      var s := t.slot.value;
      if time < s.lastEmit then Track(Some(Slot(time, [])), t.groups + [[value]], t.lost + |s.waiting|)
      else if time - s.lastEmit < rule.period then t.(slot := Some(Slot(s.lastEmit, s.waiting + [value])))
      else Track(Some(Slot(time, [])), t.groups + [s.waiting + [value]], t.lost)
  }

  function OnClose<V>(rule: Rule, t: Track<V>, time: nat): Track<V> {
    if t.slot.None? || t.slot.value.waiting == [] then t
    else
      var s := t.slot.value;
      Track(Some(Slot(if rule.closeMoves then time else s.lastEmit, [])), t.groups + [s.waiting], t.lost)
  }

  function OnCall<V>(rule: Rule, t: Track<V>, k: string, c: Call<V>): Track<V> {
    match c
    case Push(key, time, value) => if key == k then OnPush(rule, t, time, value) else t
    case Close(time) => OnClose(rule, t, time)
  }

  function After<V>(rule: Rule, calls: seq<Call<V>>, k: string): Track<V> {
    if calls == [] then Track(None, [], 0)
    else OnCall(rule, After(rule, calls[..|calls| - 1], k), k, calls[|calls| - 1])
  }

  /** The pushes of a key, in order. */
  function Pushed<V>(calls: seq<Call<V>>, k: string): seq<V> {
    if calls == [] then []
    else
      var c := calls[|calls| - 1];
      Pushed(calls[..|calls| - 1], k) + if c.Push? && c.key == k then [c.value] else []
  }

  function Waiting<V>(t: Track<V>): seq<V> {
    if t.slot.None? then [] else t.slot.value.waiting
  }

  lemma OneMoreCall<V>(rule: Rule, calls: seq<Call<V>>, c: Call<V>, k: string)
    ensures After(rule, calls + [c], k) == OnCall(rule, After(rule, calls, k), k, c)
    ensures Pushed(calls + [c], k) == Pushed(calls, k) + if c.Push? && c.key == k then [c.value] else []
  {
    assert (calls + [c])[..|calls|] == calls;
  }

  /** A push moves the track of its own key alone. */
  lemma PushMovesOneKey<V>(rule: Rule, calls: seq<Call<V>>, c: Call<V>)
    requires c.Push?
    ensures After(rule, calls + [c], c.key) == OnPush(rule, After(rule, calls, c.key), c.time, c.value)
    ensures forall k :: k != c.key ==> After(rule, calls + [c], k) == After(rule, calls, k)
  {
    OneMoreCall(rule, calls, c, c.key);
    forall k | k != c.key ensures After(rule, calls + [c], k) == After(rule, calls, k) {
      OneMoreCall(rule, calls, c, k);
    }
  }

  /** A push more was accounted for: in a group, waiting, or at the price of a loss. */
  predicate OneMore<V(==)>(t: Track<V>, u: Track<V>, value: V) {
    && |Flatten(u.groups)| + |Waiting(u)| + u.lost == |Flatten(t.groups)| + |Waiting(t)| + t.lost + 1
    && (u.lost == t.lost ==> Flatten(u.groups) + Waiting(u) == Flatten(t.groups) + Waiting(t) + [value])
  }

  lemma PushAccounts<V>(rule: Rule, t: Track<V>, time: nat, value: V)
    ensures OneMore(t, OnPush(rule, t, time, value), value)
  {
    var u := OnPush(rule, t, time, value);
    if t.slot.None? || time < t.slot.value.lastEmit {
      EmittedAlone(t, u, value);
    } else if time - t.slot.value.lastEmit < rule.period {
      LeftWaiting(t, u, value);
    } else {
      EmittedTogether(t, u, value);
    }
  }

  lemma EmittedAlone<V>(t: Track<V>, u: Track<V>, value: V)
    requires u.groups == t.groups + [[value]] && Waiting(u) == [] && u.lost == t.lost + |Waiting(t)|
    ensures OneMore(t, u, value)
  {
    FlattenOneMore(t.groups, [value]);
    if u.lost == t.lost { assert Flatten(t.groups) + Waiting(t) == Flatten(t.groups); }
  }

  lemma LeftWaiting<V>(t: Track<V>, u: Track<V>, value: V)
    requires u.groups == t.groups && Waiting(u) == Waiting(t) + [value] && u.lost == t.lost
    ensures OneMore(t, u, value)
  {
    AppendLast(Flatten(t.groups), Waiting(u));
  }

  lemma EmittedTogether<V>(t: Track<V>, u: Track<V>, value: V)
    requires u.groups == t.groups + [Waiting(t) + [value]] && Waiting(u) == [] && u.lost == t.lost
    ensures OneMore(t, u, value)
  {
    FlattenOneMore(t.groups, Waiting(t) + [value]);
    AppendLast(Flatten(t.groups), Waiting(t) + [value]);
  }

  lemma CloseAccounts<V>(rule: Rule, t: Track<V>, time: nat)
    ensures var u := OnClose(rule, t, time);
            u.lost == t.lost && Waiting(u) == [] && Flatten(u.groups) == Flatten(t.groups) + Waiting(t)
  {
    FlattenOneMore(t.groups, Waiting(t));
  }

  /** Emitted, waiting and lost pushes are all the pushes of the key; while none is lost the
      groups followed by what waits are the pushes themselves, in order. */
  lemma {:induction false} Conservation<V>(rule: Rule, calls: seq<Call<V>>, k: string)
    ensures var t := After(rule, calls, k);
            && |Flatten(t.groups)| + |Waiting(t)| + t.lost == |Pushed(calls, k)|
            && (t.lost == 0 ==> Flatten(t.groups) + Waiting(t) == Pushed(calls, k))
  {
    if calls != [] {
      var n := |calls| - 1;
      Conservation(rule, calls[..n], k);
      var t := After(rule, calls[..n], k);
      match calls[n]
      case Push(key, time, value) => PushAccounts(rule, t, time, value);
      case Close(time) => CloseAccounts(rule, t, time);
    }
  }

  /** The calls whose time a key's slot reads: its own pushes, and a close that moves it. */
  predicate Concerns<V>(rule: Rule, c: Call<V>, k: string) {
    if c.Close? then rule.closeMoves else c.key == k
  }

  ghost predicate NonDecreasing<V>(rule: Rule, calls: seq<Call<V>>, k: string) {
    forall i, j :: 0 <= i < j < |calls| && Concerns(rule, calls[i], k) && Concerns(rule, calls[j], k) ==>
                     calls[i].time <= calls[j].time
  }

  /** The last emission is not after any later call. */
  lemma {:induction false} EmissionIsPast<V>(rule: Rule, calls: seq<Call<V>>, k: string, now: nat)
    requires forall i :: 0 <= i < |calls| && Concerns(rule, calls[i], k) ==> calls[i].time <= now
    ensures var s := After(rule, calls, k).slot; s.Some? ==> s.value.lastEmit <= now
  {
    if calls != [] {
      EmissionIsPast(rule, calls[..|calls| - 1], k, now);
    }
  }

  /** With times that do not decrease no push is lost. */
  lemma {:induction false} NothingLost<V>(rule: Rule, calls: seq<Call<V>>, k: string)
    requires NonDecreasing(rule, calls, k)
    ensures After(rule, calls, k).lost == 0
    ensures var t := After(rule, calls, k); Flatten(t.groups) + Waiting(t) == Pushed(calls, k)
  {
    if calls != [] {
      var n := |calls| - 1;
      NothingLost(rule, calls[..n], k);
      if Concerns(rule, calls[n], k) { EmissionIsPast(rule, calls[..n], k, calls[n].time); }
      NoLossAtLast(rule, After(rule, calls[..n], k), k, calls[n]);
    }
    Conservation(rule, calls, k);
  }

  lemma NoLossAtLast<V>(rule: Rule, t: Track<V>, k: string, c: Call<V>)
    requires Concerns(rule, c, k) && t.slot.Some? ==> t.slot.value.lastEmit <= c.time
    ensures OnCall(rule, t, k, c).lost == t.lost
  {
  }

  /** A push loses what waits exactly when its time is before the last emission. */
  lemma LossIsGoingBack<V>(rule: Rule, calls: seq<Call<V>>, k: string, time: nat, value: V)
    ensures var t, u := After(rule, calls, k), After(rule, calls + [Push(k, time, value)], k);
            u.lost > t.lost <==> t.slot.Some? && time < t.slot.value.lastEmit && t.slot.value.waiting != []
  {
    OneMoreCall(rule, calls, Push(k, time, value), k);
  }

  /** After a close nothing waits under any key, and with times that do not decrease every push
      is in exactly one group. */
  lemma CloseEmptiesAll<V>(rule: Rule, calls: seq<Call<V>>, time: nat, k: string)
    ensures var t := After(rule, calls + [Close(time)], k);
            && Waiting(t) == []
            && (NonDecreasing(rule, calls + [Close(time)], k) ==> Flatten(t.groups) == Pushed(calls, k))
  {
    OneMoreCall(rule, calls, Close(time), k);
    CloseAccounts(rule, After(rule, calls, k), time);
    if NonDecreasing(rule, calls + [Close(time)], k) {
      NothingLost(rule, calls + [Close(time)], k);
      var t := After(rule, calls + [Close(time)], k);
      assert Flatten(t.groups) == Flatten(t.groups) + Waiting(t);
      assert Pushed(calls, k) == Pushed(calls, k) + [];
    }
  }

  /** The call is a push of the key that emits a group. */
  ghost predicate Emits<V>(rule: Rule, calls: seq<Call<V>>, k: string, i: nat)
    requires i < |calls|
  {
    && calls[i].Push? && calls[i].key == k
    && |After(rule, calls[..i + 1], k).groups| > |After(rule, calls[..i], k).groups|
  }

  lemma UpTo<V>(rule: Rule, calls: seq<Call<V>>, k: string, i: nat)
    requires i < |calls|
    ensures After(rule, calls[..i + 1], k) == OnCall(rule, After(rule, calls[..i], k), k, calls[i])
  {
    assert calls[..i + 1][..i] == calls[..i];
  }

  /** Once a push has emitted, the last emission is never earlier than it. */
  lemma {:induction false} EmissionStays<V>(rule: Rule, calls: seq<Call<V>>, k: string, i: nat, j: nat)
    requires NonDecreasing(rule, calls, k) && i < j <= |calls| && Emits(rule, calls, k, i)
    ensures var s := After(rule, calls[..j], k).slot; s.Some? && s.value.lastEmit >= calls[i].time
  {
    UpTo(rule, calls, k, j - 1);
    if i + 1 == j {
      EmissionSetsTime(rule, After(rule, calls[..i], k), calls[i].time, calls[i].value);
    } else {
      EmissionStays(rule, calls, k, i, j - 1);
      EmissionAdvances(rule, After(rule, calls[..j - 1], k), k, calls[j - 1], calls[i].time);
    }
  }

  lemma EmissionSetsTime<V>(rule: Rule, t: Track<V>, time: nat, value: V)
    requires |OnPush(rule, t, time, value).groups| > |t.groups|
    ensures OnPush(rule, t, time, value).slot == Some(Slot(time, []))
  {
  }

  lemma EmissionAdvances<V>(rule: Rule, t: Track<V>, k: string, c: Call<V>, from: nat)
    requires t.slot.Some? && t.slot.value.lastEmit >= from && (Concerns(rule, c, k) ==> c.time >= from)
    ensures var s := OnCall(rule, t, k, c).slot; s.Some? && s.value.lastEmit >= from
  {
  }

  /** Two pushes of a key that both emit are at least the minimum period apart. */
  lemma EmissionsAreApart<V>(rule: Rule, calls: seq<Call<V>>, k: string, i: nat, j: nat)
    requires NonDecreasing(rule, calls, k) && i < j < |calls|
    requires Emits(rule, calls, k, i) && Emits(rule, calls, k, j)
    ensures calls[j].time - calls[i].time >= rule.period
  {
    EmissionStays(rule, calls, k, i, j);
    EmissionIsPast(rule, calls[..j], k, calls[j].time);
    UpTo(rule, calls, k, j);
  }

  // ---------------------------------------------------------------------------------------
  // When a push emits.
  // ---------------------------------------------------------------------------------------

  /** A push emits exactly when it is the key's first, its time is before the last emission, or
      the period has passed since: alone in the first two cases, else with all that waits. */
  lemma PushEmitsExactly<V>(rule: Rule, calls: seq<Call<V>>, k: string, time: nat, value: V)
    ensures var t, u := After(rule, calls, k), After(rule, calls + [Push(k, time, value)], k);
            var first := Pushed(calls, k) == [];
            var back := !first && t.slot.Some? && time < t.slot.value.lastEmit;
            && (u.groups != t.groups <==>
                first || back || (t.slot.Some? && time >= t.slot.value.lastEmit + rule.period))
            && (u.groups != t.groups ==>
                  u.groups == t.groups + [if first || back then [value] else Waiting(t) + [value]]
                  && Waiting(u) == [])
            && (u.groups == t.groups ==> Waiting(u) == Waiting(t) + [value])
  {
    OneMoreCall(rule, calls, Push(k, time, value), k);
    SlotFromFirst(rule, calls, k);
  }

  /** A key is known from its first push on. */
  lemma {:induction false} SlotFromFirst<V>(rule: Rule, calls: seq<Call<V>>, k: string)
    ensures After(rule, calls, k).slot.None? <==> Pushed(calls, k) == []
  {
    if calls != [] { SlotFromFirst(rule, calls[..|calls| - 1], k); }
  }

  /** Call j emitted a group of the key and moved its last emission: every emitting push does,
      a close only where closes count. */
  ghost predicate Moves<V>(rule: Rule, calls: seq<Call<V>>, k: string, j: nat) {
    && j < |calls| && (calls[j].Push? || rule.closeMoves)
    && After(rule, calls[..j + 1], k).groups != After(rule, calls[..j], k).groups
  }

  /** The last emission is the time of the last call that moved it. */
  lemma {:induction false} LastEmission<V>(rule: Rule, calls: seq<Call<V>>, k: string) returns (j: nat)
    ensures var slot := After(rule, calls, k).slot;
            slot.Some? ==>
              && Moves(rule, calls, k, j) && slot.value.lastEmit == calls[j].time
              && forall i: nat :: j < i < |calls| ==> !Moves(rule, calls, k, i)
  {
    j := 0;
    if calls != [] {
      var n := |calls| - 1;
      j := LastEmission(rule, calls[..n], k);
      assert calls[..n + 1] == calls;
      forall i: nat | i < n ensures Moves(rule, calls, k, i) <==> Moves(rule, calls[..n], k, i) {
        assert calls[..n][..i] == calls[..i] && calls[..n][..i + 1] == calls[..i + 1];
      }
      LastCallMoves(rule, After(rule, calls[..n], k), k, calls[n]);
      if Moves(rule, calls, k, n) { j := n; }
    }
  }

  lemma LastCallMoves<V>(rule: Rule, t: Track<V>, k: string, c: Call<V>)
    ensures var u := OnCall(rule, t, k, c);
            if u.groups != t.groups && (c.Push? || rule.closeMoves) then u.slot.Some? && u.slot.value.lastEmit == c.time
            else (u.slot.Some? <==> t.slot.Some?) && (u.slot.Some? ==> u.slot.value.lastEmit == t.slot.value.lastEmit)
  {
  }
}
