/** The firmware's millisecond clock: a 32-bit counter that wraps after about 49.7 days. The
    unbounded true time stays in the specifications. */
module Clock {
  const WRAP: nat := 0x1_0000_0000

  /** What the counter shows at true time t. */
  function Ms(t: nat): (m: nat)
    ensures m < WRAP
  {
    t % WRAP
  }

  /** Unsigned 32-bit subtraction of two readings. */
  function Elapsed(now: nat, before: nat): (d: nat)
    ensures d < WRAP
  {
    (now - before) % WRAP
  }

  /** Unsigned 32-bit addition. */
  function Plus(m: nat, d: nat): (r: nat)
    ensures r < WRAP
  {
    (m + d) % WRAP
  }

  /** A 32-bit difference read as a signed number is positive. */
  predicate SignedPositive(d: nat) {
    0 < d < WRAP / 2
  }

  lemma ModWithin(x: int, k: int)
    requires 0 <= x - k * WRAP < WRAP
    ensures x % WRAP == x - k * WRAP
  {
  }

  /** Unsigned subtraction measures any true interval shorter than one wrap. */
  lemma ElapsedExact(now: nat, before: nat)
    requires before <= now < before + WRAP
    ensures Elapsed(Ms(now), Ms(before)) == now - before
  {
    var a, b := now / WRAP, before / WRAP;
    assert Ms(now) == now - a * WRAP && Ms(before) == before - b * WRAP;
    ModWithin(Ms(now) - Ms(before), b - a);
  }

  /** In general it measures the true interval modulo one wrap, so it never overstates it. */
  lemma ElapsedNeverOverstates(now: nat, before: nat)
    requires before <= now
    ensures Elapsed(Ms(now), Ms(before)) == (now - before) % WRAP <= now - before
  {
    var a, b, c := now / WRAP, before / WRAP, (now - before) / WRAP;
    assert Ms(now) == now - a * WRAP && Ms(before) == before - b * WRAP;
    ModWithin(Ms(now) - Ms(before), c + b - a);
  }

  lemma PlusExact(t: nat, d: nat)
    ensures Plus(Ms(t), d) == Ms(t + d)
  {
    var a, c := t / WRAP, (t + d) / WRAP;
    assert Ms(t) == t - a * WRAP;
    ModWithin(Ms(t) + d, c - a);
  }

  /** The signed test tells before from after within half a wrap on either side. */
  lemma SignedExact(now: nat, mark: nat)
    requires now - mark < WRAP / 2 && mark - now <= WRAP / 2
    ensures SignedPositive(Elapsed(Ms(now), Ms(mark))) <==> now > mark
  {
    if now >= mark {
      ElapsedExact(now, mark);
    } else {
      var a, b := now / WRAP, mark / WRAP;
      assert Ms(now) == now - a * WRAP && Ms(mark) == mark - b * WRAP;
      ModWithin(Ms(now) - Ms(mark), b - a - 1);
    }
  }

  lemma ElapsedIsMs(begun: nat, at: nat)
    requires begun <= at
    ensures Elapsed(Ms(at), Ms(begun)) == Ms(at - begun)
  {
    ElapsedNeverOverstates(at, begun);
  }

  /** Two readings of an elapsed time differ by no more than the true interval between them. */
  lemma RunLasts(begun: nat, from: nat, at: nat, hold: nat)
    requires begun <= from <= at
    requires Elapsed(Elapsed(Ms(at), Ms(begun)), Elapsed(Ms(from), Ms(begun))) >= hold
    ensures from + hold <= at
  {
    hide Elapsed, Ms;
    ElapsedIsMs(begun, at);
    ElapsedIsMs(begun, from);
    ElapsedNeverOverstates(at - begun, from - begun);
  }
}
