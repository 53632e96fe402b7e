/**
 Restoring a music position at another sample rate (src/music_restore_position.h), in 64-bit
 unsigned arithmetic.
 */
module RestorePosition {
  import opened Arithmetic
  import opened Integers
  import opened Options


  datatype Node = Intro | Loop | Link

  datatype Input = Input(
    oldGeneration: nat, newGeneration: nat, occurrence: nat, appearance: nat, visit: nat, iteration: nat,
    node: Node, cursor: nat, envelope: nat, sourceRate: nat, outputRate: nat, hostPaused: bool)

  datatype Position = Position(
    generation: nat, occurrence: nat, appearance: nat, visit: nat, iteration: nat, node: Node,
    cursor: nat, envelope: nat, numerator: nat, denominator: nat, conversionError: nat, hostPaused: bool,
    newVisit: bool, newTrigger: bool)

  /** Half of the rate, rounded up, in 64 bits: for the largest rate the sum wraps to 0. */
  function Half(rate: nat): nat { if rate == MAX_U64 then 0 else (rate + 1) / 2 }

  lemma DivMod(n: nat, k: nat)
    requires k > 0
    ensures n == n / k * k + n % k && 0 <= n % k < k && n / k >= 0
  {
    if n / k < 0 { MulMonotone(n / k, -1, k); }
  }

  /** The cursor at the other rate, rounded. */
  function Rounded(numerator: nat, rate: nat): nat
    requires rate > 0
  {
    DivMod(numerator, rate);
    numerator / rate + if numerator % rate >= Half(rate) then 1 else 0
  }

  predicate Accepted(i: Input) {
    && i.newGeneration > i.oldGeneration && i.occurrence != 0 && i.appearance != 0
    && i.sourceRate != 0 && i.outputRate != 0
    && i.cursor <= MAX_U64 / i.outputRate
  }

  function Restore(i: Input): Option<Position> {
    if !Accepted(i) then None
    else
      var numerator := i.cursor * i.outputRate;
      Some(Position(i.newGeneration, i.occurrence, i.appearance, i.visit, i.iteration, i.node,
                    Rounded(numerator, i.sourceRate), i.envelope, numerator, i.sourceRate,
                    if numerator % i.sourceRate == 0 then 0 else 1, i.hostPaused, false, false))
  }

  /** The result is a nearest integer to the exact position. */
  predicate Nearest(result: nat, numerator: nat, rate: nat) {
    2 * numerator <= 2 * (result * rate) + rate && 2 * (result * rate) <= 2 * numerator + rate
  }

  /** Restoring rounds to the nearest position, exactly unless the rate is 2^64-1 and the
      remainder is below one half: that rate always rounds up. */
  lemma RoundsToNearest(numerator: nat, rate: nat)
    requires 0 < rate <= MAX_U64
    ensures Nearest(Rounded(numerator, rate), numerator, rate) <==>
            rate < MAX_U64 || 2 * (numerator % rate) >= rate
  {
    DivMod(numerator, rate);
    var q := numerator / rate;
    Distribute(q, 1, rate);
  }

  /** For the largest rate even position 0 is moved. */
  lemma LargestRateMovesZero()
    ensures Rounded(0, MAX_U64) == 1 && !Nearest(Rounded(0, MAX_U64), 0, MAX_U64)
  {
  }

  /** Nothing overflows: the product fits, and so does the rounded cursor. */
  lemma NoOverflow(i: Input)
    requires Accepted(i) && i.sourceRate <= MAX_U64
    ensures Restore(i).value.numerator <= MAX_U64 && Restore(i).value.cursor <= MAX_U64
  {
    ProductFits(i.cursor, i.outputRate);
    RoundedFits(i.cursor * i.outputRate, i.sourceRate);
  }

  lemma ProductFits(cursor: nat, rate: nat)
    requires rate > 0 && cursor <= MAX_U64 / rate
    ensures cursor * rate <= MAX_U64
  {
    MulMonotone(cursor, MAX_U64 / rate, rate);
    DivMod(MAX_U64, rate);
  }

  lemma RoundedFits(numerator: nat, rate: nat)
    requires 0 < rate <= MAX_U64 && numerator <= MAX_U64
    ensures Rounded(numerator, rate) <= MAX_U64
  {
    if rate == 1 {
      assert numerator / 1 == numerator && numerator % 1 == 0;
    } else {
      DivMod(numerator, rate);
      MulMonotone(2, rate, numerator / rate);
    }
  }

  lemma SmallProduct(d: int, k: nat)
    requires k > 0 && d * k < k && 0 < d * k + k
    ensures d == 0
  {
    if d >= 1 { MulMonotone(1, d, k); }
    if d <= -1 { MulMonotone(d, -1, k); }
  }

  /** A later cursor is never restored earlier. */
  lemma Monotone(a: nat, b: nat, outputRate: nat, sourceRate: nat)
    requires a <= b && 0 < sourceRate
    ensures Rounded(a * outputRate, sourceRate) <= Rounded(b * outputRate, sourceRate)
  {
    MulMonotone(a, b, outputRate);
    RoundedMonotone(a * outputRate, b * outputRate, sourceRate);
  }

  lemma RoundedMonotone(m: nat, n: nat, rate: nat)
    requires m <= n && rate > 0
    ensures Rounded(m, rate) <= Rounded(n, rate)
  {
    DivMod(m, rate);
    DivMod(n, rate);
    var p, q := m / rate, n / rate;
    if p > q {
      Distribute(p, q, rate);
      MulMonotone(1, p - q, rate);
    } else if p < q {
      assert Rounded(m, rate) <= p + 1 <= q;
    } else {
      assert m % rate <= n % rate;
    }
  }

  /** Restoring to an equal or higher rate and back gives the cursor again. */
  lemma ThereAndBack(cursor: nat, low: nat, high: nat)
    requires 0 < low <= high < MAX_U64
    ensures Rounded(Rounded(cursor * high, low) * low, high) == cursor
  {
    var there := Rounded(cursor * high, low);
    if low == high {
      SameRate(cursor, low);
    } else {
      RoundsToNearest(cursor * high, low);
      RoundsToNearest(there * low, high);
      BothNearest(cursor, there, Rounded(there * low, high), low, high);
    }
  }

  lemma SameRate(cursor: nat, rate: nat)
    requires 0 < rate < MAX_U64
    ensures Rounded(cursor * rate, rate) == cursor
  {
    DivModUnique(cursor, 0, rate);
    var n := cursor * rate;
    assert n / rate == cursor && n % rate == 0;
  }

  lemma BothNearest(cursor: nat, there: nat, back: nat, low: nat, high: nat)
    requires 0 < low < high
    requires Nearest(there, cursor * high, low) && Nearest(back, there * low, high)
    ensures back == cursor
  {
    Distribute(back, cursor, high);
    SmallProduct(back - cursor, high);
  }

  /** With the largest output rate the way back always rounds up. */
  lemma LargestRateAndBack(cursor: nat, low: nat)
    requires 0 < low <= MAX_U64 && cursor <= 1
    requires Rounded(cursor * MAX_U64, low) <= MAX_U64 / low
    ensures Rounded(Rounded(cursor * MAX_U64, low) * low, MAX_U64) == cursor <==> cursor == 1 && MAX_U64 % low != 0
  {
    var there := Rounded(cursor * MAX_U64, low);
    ProductFits(there, low);
    assert Rounded(there * low, MAX_U64) == if there * low == MAX_U64 then 2 else 1;
    if cursor == 1 { AtMostTheLargest(low); }
  }

  lemma AtMostTheLargest(low: nat)
    requires 0 < low <= MAX_U64 && Rounded(MAX_U64, low) <= MAX_U64 / low
    ensures Rounded(MAX_U64, low) * low == MAX_U64 <==> MAX_U64 % low == 0
  {
    DivMod(MAX_U64, low);
  }

  /** For whole calls: whenever both are accepted, the second undoes the first, exactly unless
      the output rate is 2^64-1. */
  lemma RestoreThereAndBack(there: Input, back: Input)
    requires there.sourceRate <= there.outputRate <= MAX_U64
    requires Restore(there).Some? && Restore(back).Some?
    requires back.cursor == Restore(there).value.cursor
    requires back.sourceRate == there.outputRate && back.outputRate == there.sourceRate
    ensures Restore(back).value.cursor == there.cursor <==>
            there.outputRate < MAX_U64 || (there.cursor == 1 && MAX_U64 % there.sourceRate != 0)
  {
    if there.outputRate < MAX_U64 {
      ThereAndBack(there.cursor, there.sourceRate, there.outputRate);
    } else {
      LargestRateAndBack(there.cursor, there.sourceRate);
    }
  }

  /** Ties go up: below the largest rate the result is the exact position plus one half, rounded
      down. */
  lemma TiesGoUp(numerator: nat, rate: nat)
    requires 0 < rate < MAX_U64
    ensures var r := Rounded(numerator, rate);
            2 * (r * rate) <= 2 * numerator + rate < 2 * (r * rate) + 2 * rate
  {
    DivMod(numerator, rate);
    Distribute(numerator / rate, 1, rate);
  }

  /** A position is refused exactly for a generation that is not newer, an absent occurrence or
      appearance, a zero rate, or a product that does not fit. */
  lemma RefusedExactly(i: Input)
    ensures Restore(i) == None <==>
            || i.newGeneration <= i.oldGeneration || i.occurrence == 0 || i.appearance == 0
            || i.sourceRate == 0 || i.outputRate == 0 || i.cursor * i.outputRate > MAX_U64
  {
    if i.outputRate != 0 { ProductFitsExactly(i.cursor, i.outputRate); }
  }

  lemma ProductFitsExactly(cursor: nat, rate: nat)
    requires rate > 0
    ensures cursor <= MAX_U64 / rate <==> cursor * rate <= MAX_U64
  {
    if cursor <= MAX_U64 / rate {
      ProductFits(cursor, rate);
    } else {
      DivMod(MAX_U64, rate);
      MulMonotone(MAX_U64 / rate + 1, cursor, rate);
      Distribute(MAX_U64 / rate, 1, rate);
    }
  }

  /** A restored position is the same place in the piece under the new generation: no new visit and
      no new trigger, and a conversion error exactly when the rates do not divide. */
  lemma RestoreKeeps(i: Input)
    requires Restore(i).Some?
    ensures var p := Restore(i).value;
            && p.generation == i.newGeneration && p.occurrence == i.occurrence && p.appearance == i.appearance
            && p.visit == i.visit && p.iteration == i.iteration && p.node == i.node
            && p.envelope == i.envelope && p.hostPaused == i.hostPaused && !p.newVisit && !p.newTrigger
            && p.numerator == i.cursor * i.outputRate && p.denominator == i.sourceRate
            && p.cursor == Rounded(i.cursor * i.outputRate, i.sourceRate)
            && p.conversionError == if i.cursor * i.outputRate % i.sourceRate == 0 then 0 else 1
  {
  }
}
