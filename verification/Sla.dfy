/** SLA accounting for one team and service: its passes (true) and failures
    (false), oldest first. */
module Sla {

  /** The engine's counter: back to zero on a pass and at the threshold. */
  function ResetCounter(h: seq<bool>, threshold: int): int {
    if h == [] then 0
    else if h[|h| - 1] then 0
    else
      var c := ResetCounter(h[..|h| - 1], threshold) + 1;
      if c >= threshold then 0 else c
  }

  /** Whether one more failure after h costs a violation. */
  predicate Breaches(h: seq<bool>, threshold: int) { ResetCounter(h, threshold) + 1 >= threshold }

  function Violations(h: seq<bool>, threshold: int): nat {
    if h == [] then 0
    else
      var front := h[..|h| - 1];
      Violations(front, threshold) + (if !h[|h| - 1] && Breaches(front, threshold) then 1 else 0)
  }

  /** Go's remainder: the sign of the dividend. */
  function GoRem(a: int, b: int): int
    requires b != 0
  {
    var m := if b < 0 then -b else b;
    if a >= 0 then a % m else -(-a % m)
  }

  /** The counter as it is rebuilt from the log. */
  function ModCounter(h: seq<bool>, threshold: int): int
    requires threshold != 0
  {
    if h == [] then 0
    else if h[|h| - 1] then 0
    else GoRem(ModCounter(h[..|h| - 1], threshold) + 1, threshold)
  }

  /** The failures since the last pass. */
  function Trailing(h: seq<bool>): nat {
    if h == [] || h[|h| - 1] then 0 else Trailing(h[..|h| - 1]) + 1
  }

  function Failures(h: seq<bool>): nat {
    if h == [] then 0 else Failures(h[..|h| - 1]) + (if h[|h| - 1] then 0 else 1)
  }

  /** Failures that were on the counter when a pass cleared it. */
  function Forgiven(h: seq<bool>, threshold: int): int {
    if h == [] then 0
    else
      var front := h[..|h| - 1];
      Forgiven(front, threshold) + (if h[|h| - 1] then ResetCounter(front, threshold) else 0)
  }

  /** The lengths of the maximal runs of failures, in order. */
  function Streaks(h: seq<bool>): seq<nat> {
    if h == [] then []
    else
      var front := h[..|h| - 1];
      var s := Streaks(front);
      if h[|h| - 1] then s
      else if front == [] || front[|front| - 1] || s == [] then s + [1]
      else s[..|s| - 1] + [s[|s| - 1] + 1]
  }

  function FullThresholds(streaks: seq<nat>, threshold: int): nat
    requires threshold >= 1
  {
    if streaks == [] then 0
    else FullThresholds(streaks[..|streaks| - 1], threshold) + streaks[|streaks| - 1] / threshold
  }

  function Sum(xs: seq<nat>): nat {
    if xs == [] then 0 else Sum(xs[..|xs| - 1]) + xs[|xs| - 1]
  }

  // -------------------------------------------------------------------- laws

  lemma NextMod(n: nat, t: int)
    requires t >= 1
    ensures (n + 1) % t == if n % t + 1 >= t then 0 else n % t + 1
    ensures (n + 1) / t == if n % t + 1 >= t then n / t + 1 else n / t
  {
    var q, r := n / t, n % t;
    assert n == t * q + r;
    if r + 1 >= t {
      assert n + 1 == t * (q + 1) by { assert t * (q + 1) == t * q + t; }
      Divides(n + 1, t, q + 1, 0);
    } else {
      Divides(n + 1, t, q, r + 1);
    }
  }

  lemma Divides(n: int, t: int, q: int, r: int)
    requires t >= 1 && n == t * q + r && 0 <= r < t
    ensures n / t == q && n % t == r
  {
    var d := n / t - q;
    assert n == t * (n / t) + n % t;
    assert t * d == r - n % t by { assert t * d == t * (n / t) - t * q; }
    AtLeastOne(t, d);
  }

  lemma AtLeastOne(t: int, d: int)
    requires t >= 1
    ensures d >= 1 ==> t * d >= t
    ensures d <= -1 ==> t * d <= -t
  {
  }

  lemma NextRem(c: int, t: int)
    requires 0 <= c < t
    ensures GoRem(c + 1, t) == if c + 1 >= t then 0 else c + 1
  {
    if c + 1 == t { Divides(c + 1, t, 1, 0); } else { Divides(c + 1, t, 0, c + 1); }
  }

  lemma ZeroMod(t: int)
    requires t >= 1
    ensures 0 % t == 0
  {
    Divides(0, t, 0, 0);
  }

  /** How both counters go on after a failure. */
  lemma NextTrailing(n: nat, t: int)
    requires t >= 1
    ensures (n + 1) % t == (if n % t + 1 >= t then 0 else n % t + 1)
    ensures (n + 1) % t == GoRem(n % t + 1, t)
  {
    NextMod(n, t);
    NextRem(n % t, t);
  }

  /** Go's remainder: what is left of a whole multiple, smaller than the divisor
      and never of the other sign than the dividend. */
  lemma GoRemIsLeft(a: int, b: int) returns (q: int)
    requires b != 0
    ensures a == b * q + GoRem(a, b)
    ensures -(if b < 0 then -b else b) < GoRem(a, b) < (if b < 0 then -b else b)
    ensures (a >= 0 ==> GoRem(a, b) >= 0) && (a <= 0 ==> GoRem(a, b) <= 0)
  {
    var m := if b < 0 then -b else b;
    var d := if a >= 0 then a / m else -(-a / m);
    assert a == m * d + GoRem(a, b);
    q := if b < 0 then -d else d;
    assert b * q == m * d;
  }

  /** Both counters are the current run of failures, modulo the threshold. */
  lemma {:induction false} CountersAreTrailing(h: seq<bool>, threshold: int)
    requires threshold >= 1
    ensures ResetCounter(h, threshold) == Trailing(h) % threshold
    ensures ModCounter(h, threshold) == Trailing(h) % threshold
  {
    if h == [] || h[|h| - 1] {
      assert Trailing(h) == 0;
      ZeroMod(threshold);
    } else {
      var front := h[..|h| - 1];
      assert Trailing(h) == Trailing(front) + 1;
      CountersAreTrailing(front, threshold);
      NextTrailing(Trailing(front), threshold);
    }
  }

  /** A failure costs a violation exactly when it completes a multiple of the
      threshold in its run. */
  lemma BreachAtMultiples(h: seq<bool>, threshold: int)
    requires threshold >= 1
    ensures Breaches(h, threshold) <==> Trailing(h + [false]) % threshold == 0
  {
    CountersAreTrailing(h, threshold);
    assert (h + [false])[..|h|] == h;
    NextMod(Trailing(h), threshold);
  }

  lemma {:induction false} MinusOneNeverCounts(h: seq<bool>)
    ensures ResetCounter(h, -1) == 0 && ModCounter(h, -1) == 0
  {
    if h != [] { MinusOneNeverCounts(h[..|h| - 1]); }
  }

  /** For which thresholds the rebuilt counter is the engine's own. Only zero
      is replaced when a configuration loads, so a negative one can get here. */
  lemma RebuildAgreesExactly(threshold: int)
    requires threshold != 0
    ensures (forall h :: ResetCounter(h, threshold) == ModCounter(h, threshold))
            <==> threshold >= 1 || threshold == -1
  {
    if threshold >= 1 {
      forall h ensures ResetCounter(h, threshold) == ModCounter(h, threshold) {
        CountersAreTrailing(h, threshold);
      }
    } else if threshold == -1 {
      forall h ensures ResetCounter(h, threshold) == ModCounter(h, threshold) {
        MinusOneNeverCounts(h);
      }
    } else {
      NegativeThresholdDisagrees(threshold);
    }
  }

  /** A threshold below -1 is enough, and one failure. */
  lemma NegativeThresholdDisagrees(threshold: int)
    requires threshold < -1
    ensures ResetCounter([false], threshold) == 0 && ModCounter([false], threshold) == 1
  {
    assert [false][..0] == [];
  }

  lemma {:induction false} CounterBounds(h: seq<bool>, threshold: int)
    requires threshold >= 1
    ensures 0 <= ResetCounter(h, threshold) < threshold
  {
    if h != [] { CounterBounds(h[..|h| - 1], threshold); }
  }

  /** Every failure is accounted for: it went into a violation, was forgiven by
      a pass, or is still on the counter. */
  lemma {:induction false} Accounting(h: seq<bool>, threshold: int)
    requires threshold >= 1
    ensures Failures(h) == threshold * Violations(h, threshold) + ResetCounter(h, threshold) + Forgiven(h, threshold)
  {
    if h != [] {
      var front := h[..|h| - 1];
      Accounting(front, threshold);
      CounterBounds(front, threshold);
      var v := Violations(front, threshold);
      assert threshold * (v + 1) == threshold * v + threshold;
    }
  }

  lemma {:induction false} LastStreak(h: seq<bool>)
    ensures h != [] && !h[|h| - 1] ==> Streaks(h) != [] && Streaks(h)[|Streaks(h)| - 1] == Trailing(h)
    ensures Sum(Streaks(h)) == Failures(h)
    ensures forall s | s in Streaks(h) :: s > 0
  {
    if h != [] {
      var front := h[..|h| - 1];
      LastStreak(front);
      var s, t := Streaks(front), Streaks(h);
      if !h[|h| - 1] {
        var kept := if front == [] || front[|front| - 1] then s else s[..|s| - 1];
        assert t == kept + [Trailing(h)];
        assert t[..|t| - 1] == kept;
        assert forall x | x in kept :: x in s;
      }
    }
  }

  lemma FullThresholdsLast(kept: seq<nat>, n: nat, threshold: int)
    requires threshold >= 1
    ensures FullThresholds(kept + [n], threshold) == FullThresholds(kept, threshold) + n / threshold
  {
    assert (kept + [n])[..|kept|] == kept;
  }

  /** A failure makes the last run one longer, or starts one. */
  lemma OneMoreFailure(h: seq<bool>) returns (kept: seq<nat>)
    ensures Streaks(h) == (if Trailing(h) == 0 then kept else kept + [Trailing(h)])
    ensures Streaks(h + [false]) == kept + [Trailing(h) + 1]
  {
    assert (h + [false])[..|h|] == h;
    LastStreak(h);
    var s := Streaks(h);
    if Trailing(h) == 0 {
      kept := s;
    } else {
      kept := s[..|s| - 1];
      assert s == kept + [Trailing(h)];
    }
  }

  lemma FailureAddsThresholds(h: seq<bool>, threshold: int)
    requires threshold >= 1
    ensures FullThresholds(Streaks(h + [false]), threshold) ==
            FullThresholds(Streaks(h), threshold) + (if Breaches(h, threshold) then 1 else 0)
  {
    var kept := OneMoreFailure(h);
    CountersAreTrailing(h, threshold);
    NextMod(Trailing(h), threshold);
    FullThresholdsLast(kept, Trailing(h) + 1, threshold);
    if Trailing(h) == 0 { Divides(0, threshold, 0, 0); } else { FullThresholdsLast(kept, Trailing(h), threshold); }
  }

  /** A service pays for every full threshold of each of its runs of failures,
      and for nothing else. */
  lemma {:induction false} ViolationsPerStreak(h: seq<bool>, threshold: int)
    requires threshold >= 1
    ensures Violations(h, threshold) == FullThresholds(Streaks(h), threshold)
  {
    if h != [] {
      var front := h[..|h| - 1];
      ViolationsPerStreak(front, threshold);
      if !h[|h| - 1] {
        FailureAddsThresholds(front, threshold);
        assert h == front + [false];
      }
    }
  }
}
