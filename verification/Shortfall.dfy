/** By how much a rounded delay lets a bucket be overdrawn. The tokens of a bucket at a rate
    are a full burst, less whole tokens, plus whole nanoseconds of refill, so that what is
    missing from zero is a whole number of tokens, up to nanoseconds. */
module Shortfall {
  import opened TokenBucket

  /** What k tokens leave over after whole nanoseconds of refill. */
  function Residue(k: nat, rate: int): int
    requires rate > 0
  {
    (k * TOKEN) % rate
  }

  lemma ResidueRange(k: nat, rate: int)
    requires rate > 0
    ensures 0 <= Residue(k, rate) < rate
  {
  }

  function Largest(rate: int, n: nat): int
    requires rate > 0
  {
    if n == 0 || Largest(rate, n - 1) < Residue(n, rate) then Residue(n, rate) else Largest(rate, n - 1)
  }

  lemma {:induction false} LargestIs(rate: int, n: nat) returns (k: nat)
    requires rate > 0
    ensures k <= n && Residue(k, rate) == Largest(rate, n)
    ensures forall i: nat | i <= n :: Residue(i, rate) <= Largest(rate, n)
  {
    hide Residue;
    if n == 0 || Largest(rate, n - 1) < Residue(n, rate) {
      k := n;
      if n > 0 {
        var before := LargestIs(rate, n - 1);
      }
    } else {
      k := LargestIs(rate, n - 1);
    }
  }

  /** The largest residue: 0 exactly when the rate divides a token. */
  function MaxShortfall(rate: int): (most: int)
    requires rate > 0
    ensures 0 <= most < rate
  {
    LargestInRange(rate);
    Largest(rate, rate)
  }

  lemma LargestInRange(rate: int)
    requires rate > 0
    ensures 0 <= Largest(rate, rate) < rate
  {
    hide Residue, Largest;
    var k := LargestIs(rate, rate);
    ResidueRange(k, rate);
  }

  lemma ModShift(a: int, b: int, rate: int)
    requires rate > 0
    ensures (a + rate * b) % rate == a % rate
  {
    var q, q' := a / rate, (a + rate * b) / rate;
    var r, r' := a % rate, (a + rate * b) % rate;
    assert a == rate * q + r && a + rate * b == rate * q' + r';
    assert rate * (q' - q - b) == r - r';
    SmallMultiple(rate, q' - q - b);
  }

  lemma SmallMultiple(rate: int, d: int)
    requires rate > 0
    ensures d == 0 || rate * d >= rate || rate * d <= -rate
  {
  }

  lemma ResidueRepeats(k: nat, m: nat, rate: int)
    requires rate > 0
    ensures Residue(k + rate * m, rate) == Residue(k, rate)
  {
    assert (k + rate * m) * TOKEN == k * TOKEN + rate * (m * TOKEN);
    ModShift(k * TOKEN, m * TOKEN, rate);
  }

  /** No number of tokens leaves more. */
  lemma MaxIsMax(k: nat, rate: int)
    requires rate > 0
    ensures Residue(k, rate) <= MaxShortfall(rate)
  {
    var m, rest := k / rate, k % rate;
    assert k == rest + rate * m && m >= 0;
    ResidueRepeats(rest, m, rate);
    hide Residue, Largest;
    var most := LargestIs(rate, rate);
  }

  /** Some number of tokens, as large as one likes, leaves just that. */
  lemma MaxIsReached(rate: int, least: nat) returns (k: nat)
    requires rate > 0
    ensures k >= least && Residue(k, rate) == MaxShortfall(rate)
  {
    hide Residue, Largest;
    var first := LargestIs(rate, rate);
    var x := AtLeast(rate, least);
    k := first + x;
    ResidueRepeats(first, least, rate);
  }

  lemma AtLeast(rate: int, least: nat) returns (x: nat)
    requires rate > 0
    ensures x == rate * least && x >= least
  {
    x := rate * least;
  }

  lemma ZeroExactlyWhenDividing(rate: int)
    requires rate > 0
    ensures MaxShortfall(rate) == 0 <==> TOKEN % rate == 0
  {
    MaxIsMax(1, rate);
    assert Residue(1, rate) == TOKEN % rate;
    if TOKEN % rate == 0 {
      var k := MaxIsReached(rate, 0);
      assert TOKEN == rate * (TOKEN / rate);
      assert k * TOKEN == 0 + rate * (k * (TOKEN / rate));
      ModShift(0, k * (TOKEN / rate), rate);
    }
  }

  /** When k tokens have refilled, in whole nanoseconds: as soon as they can be drawn. */
  function DueAt(k: nat, rate: int): int
    requires rate > 0
  {
    (k * TOKEN) / rate
  }

  lemma DueRefills(k: nat, rate: int)
    requires rate > 0
    ensures Refill(rate, DueAt(k, rate)) == k * TOKEN - Residue(k, rate)
    ensures 0 <= Residue(k, rate) < rate && DueAt(k, rate) >= 0
  {
  }

  lemma DueOrder(i: nat, j: nat, rate: int)
    requires rate > 0 && i <= j
    ensures DueAt(i, rate) <= DueAt(j, rate)
  {
    DueRefills(i, rate);
    DueRefills(j, rate);
    hide DueAt, Refill, Residue;
    if DueAt(i, rate) > DueAt(j, rate) {
      RefillGrows(rate, DueAt(j, rate) + 1, DueAt(i, rate));
      RefillAdds(rate, DueAt(j, rate), 1);
    }
  }

  lemma LateEnough(k: nat, rate: int, x: nat)
    requires rate > 0 && k >= rate * (x + 1)
    ensures DueAt(k, rate) >= x
  {
    DueRefills(k, rate);
    hide DueAt, Residue;
    assert rate * (x + 1) == Refill(rate, x) + rate;
    hide Refill;
    if DueAt(k, rate) < x {
      RefillGrows(rate, DueAt(k, rate), x);
    }
  }

  /** If each of n lives admits more than refills in it, n lives admit at least n more. */
  lemma ManyTimes(rate: int, n: nat, elapsed: int, gain: int, burst: int)
    requires gain >= Refill(rate, elapsed) + 1
    ensures n * gain + burst >= burst + Refill(rate, n * elapsed) + n
  {
    var over := gain - Refill(rate, elapsed) - 1;
    assert n * over >= 0;
    assert n * gain == n * Refill(rate, elapsed) + n + n * over;
    assert n * (rate * elapsed) == rate * (n * elapsed);
  }

  // ---- The tokens a bucket can have ---------------------------------------------------

  ghost predicate OnGrid(tokens: int, rate: int)
    requires rate > 0
  {
    exists k: nat :: (tokens + k * TOKEN) % rate == 0
  }

  lemma MultipleIsZero(b: int, rate: int)
    requires rate > 0
    ensures (rate * b) % rate == 0
  {
    ModShift(0, b, rate);
  }

  lemma Reassociate(burst: int, rate: int)
    ensures burst * TOKEN + (burst * (rate - 1)) * TOKEN == rate * (burst * TOKEN)
  {
    assert (burst * (rate - 1)) * TOKEN == (burst * TOKEN) * (rate - 1);
  }

  lemma IsOnGrid(tokens: int, k: int, rate: int, b: int)
    requires rate > 0 && k >= 0 && tokens + k * TOKEN == rate * b
    ensures OnGrid(tokens, rate)
  {
    MultipleIsZero(b, rate);
    var n: nat := k;
    assert (tokens + n * TOKEN) % rate == 0;
  }

  lemma ProductIsNat(a: int, b: int)
    requires a >= 0 && b >= 0
    ensures a * b >= 0
  {
  }

  lemma BurstIsOnGrid(burst: int, rate: int)
    requires rate > 0 && burst >= 0
    ensures OnGrid(burst * TOKEN, rate)
  {
    hide OnGrid;
    ProductIsNat(burst, rate - 1);
    Reassociate(burst, rate);
    IsOnGrid(burst * TOKEN, burst * (rate - 1), rate, burst * TOKEN);
  }

  lemma RefillStaysOnGrid(tokens: int, rate: int, elapsed: int)
    requires rate > 0 && OnGrid(tokens, rate)
    ensures OnGrid(tokens + Refill(rate, elapsed), rate)
  {
    var k: nat :| (tokens + k * TOKEN) % rate == 0;
    ModShift(tokens + k * TOKEN, elapsed, rate);
    assert tokens + Refill(rate, elapsed) + k * TOKEN == tokens + k * TOKEN + rate * elapsed;
  }

  lemma TakingStaysOnGrid(tokens: int, rate: int)
    requires rate > 0 && OnGrid(tokens, rate)
    ensures OnGrid(tokens - TOKEN, rate)
  {
    var k: nat :| (tokens + k * TOKEN) % rate == 0;
    assert tokens - TOKEN + (k + 1) * TOKEN == tokens + k * TOKEN;
  }

  lemma GivingStaysOnGrid(tokens: int, rate: int)
    requires rate > 0 && OnGrid(tokens, rate)
    ensures OnGrid(tokens + TOKEN, rate)
  {
    var k: nat :| (tokens + k * TOKEN) % rate == 0;
    assert tokens + TOKEN + (k + rate - 1) * TOKEN == tokens + k * TOKEN + rate * TOKEN;
    ModShift(tokens + k * TOKEN, TOKEN, rate);
    assert (tokens + TOKEN + (k + rate - 1) * TOKEN) % rate == 0;
  }

  lemma Remainder(x: int, short: int, rate: int)
    requires 0 <= short < rate && (x - short) % rate == 0
    ensures x % rate == short
  {
    var q := (x - short) / rate;
    assert x - short == rate * q;
    ModShift(short, q, rate);
    assert short + rate * q == x;
  }

  lemma ResidueOfShort(short: int, k: nat, rate: int)
    requires 0 <= short < rate && (k * TOKEN - short) % rate == 0
    ensures Residue(k, rate) == short
  {
    Remainder(k * TOKEN, short, rate);
  }

  /** Less than one nanosecond's refill short is at most the shortfall short. */
  lemma ShortByAtMost(tokens: int, rate: int)
    requires rate > 0 && OnGrid(tokens, rate) && tokens > -rate
    ensures tokens >= -MaxShortfall(rate)
  {
    hide MaxShortfall, Residue;
    if tokens < 0 {
      var k: nat :| (tokens + k * TOKEN) % rate == 0;
      ResidueOfShort(-tokens, k, rate);
      MaxIsMax(k, rate);
    } else {
      MaxIsMax(0, rate);
      ResidueOfNothing(rate);
    }
  }

  lemma ResidueOfNothing(rate: int)
    requires rate > 0
    ensures Residue(0, rate) == 0
  {
  }

  /** With the defaults a bucket refills, from the emptiest it can be, in five minutes less
      than it is kept; but at one a minute it takes all the time. */
  lemma DefaultsRefillWithin(rate: int, x: int)
    requires rate > 0 && 0 <= x
    ensures
      var c := WithDefaults(0, 0);
      var refills := c.burst * TOKEN + MaxShortfall(rate) <= Refill(rate, c.idleTTL + 1 - x);
      (rate > 1 && x <= 300 * SECOND ==> refills) && (rate == 1 ==> (refills <==> x <= 1))
  {
    hide MaxShortfall;
    if rate > 1 && x <= 300 * SECOND {
      assert Refill(rate, 5 * TOKEN + 1) == rate * (5 * TOKEN) + rate;
      hide Refill;
      RefillGrows(rate, 5 * TOKEN + 1, 10 * TOKEN + 1 - x);
    }
    if rate == 1 {
      assert MaxShortfall(1) == 0 && Refill(1, 10 * TOKEN + 1 - x) == 10 * TOKEN + 1 - x;
    }
  }
}
