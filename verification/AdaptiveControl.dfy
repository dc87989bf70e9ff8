// adaptive/adaptive.go, the control laws: what a success does to the limit under each of the
// three algorithms, in one sample, in one step of any interleaving and over whole runs.
module AdaptiveControl {
  import opened Basics
  import opened AdaptiveLimiter

  // ----- Vegas -----

  lemma TruncatedQuotient(a: int, b: int, k: int)
    requires b > 0 && k >= 1
    ensures GoDiv(a, b) < k <==> a < k * b
  {
    if a >= 0 {
      var q := a / b;
      assert a == q * b + a % b;
      if q < k {
        assert (q + 1) * b <= k * b;
      } else {
        assert k * b <= q * b;
      }
    }
  }

  /** Vegas raises the limit by one exactly when fewer than alpha of the calls in flight are
      queueing and there is room, lowers it by one exactly when beta + 1 or more are and it is
      above MinLimit, and else keeps it. */
  lemma VegasLaw(cfg: Config, limit: int, minRTT: int, emaRTT: int)
    requires cfg.Usable() && cfg.minLimit <= limit <= cfg.maxLimit && emaRTT > 0
    ensures var target := VegasTarget(cfg, limit, minRTT, emaRTT);
            var queued := limit * (emaRTT - minRTT);
            && (target == limit + 1 <==> queued < cfg.vegasAlpha * emaRTT && limit < cfg.maxLimit)
            && (target == limit - 1 <==> queued >= (cfg.vegasBeta + 1) * emaRTT && limit > cfg.minLimit)
            && limit - 1 <= target <= limit + 1
  {
    TruncatedQuotient(limit * (emaRTT - minRTT), emaRTT, cfg.vegasAlpha);
    TruncatedQuotient(limit * (emaRTT - minRTT), emaRTT, cfg.vegasBeta + 1);
  }

  /** Queueing of at least k calls stays so as the average grows. */
  lemma QueueGrows(limit: int, minRTT: int, shorter: int, longer: int, k: int)
    requires limit >= 1 && minRTT > 0 && 0 < shorter <= longer
    ensures limit * (shorter - minRTT) >= k * shorter ==> limit * (longer - minRTT) >= k * longer
  {
    if limit * (shorter - minRTT) >= k * shorter {
      assert (limit - k) * shorter >= limit * minRTT > 0;
      assert limit - k > 0;
      assert (limit - k) * longer >= (limit - k) * shorter;
    }
  }

  /** A longer average never asks for a larger limit. */
  lemma VegasFallsWithLatency(cfg: Config, limit: int, minRTT: int, shorter: int, longer: int)
    requires cfg.Usable() && cfg.minLimit <= limit <= cfg.maxLimit && minRTT > 0 && 0 < shorter <= longer
    ensures VegasTarget(cfg, limit, minRTT, longer) <= VegasTarget(cfg, limit, minRTT, shorter)
  {
    VegasLaw(cfg, limit, minRTT, shorter);
    VegasLaw(cfg, limit, minRTT, longer);
    QueueGrows(limit, minRTT, shorter, longer, cfg.vegasAlpha);
    QueueGrows(limit, minRTT, shorter, longer, cfg.vegasBeta + 1);
  }

  // ----- Gradient2 -----

  lemma Scale(a: real, b: real, k: real)
    requires a <= b && k >= 0.0
    ensures a * k <= b * k
  {
    assert (b - a) * k >= 0.0;
  }

  lemma SignOfProduct(d: real, whole: real)
    requires whole > 0.0
    ensures d * whole > 0.0 <==> d > 0.0
    ensures d * whole < 0.0 <==> d < 0.0
  {
  }

  /** Comparing a quotient is comparing a product. */
  lemma QuotientCompares(part: real, whole: real, k: real)
    requires whole > 0.0
    ensures part / whole < k <==> part < k * whole
    ensures part / whole > k <==> part > k * whole
  {
    var q := part / whole;
    SignOfProduct(q - k, whole);
    assert part == q * whole;
    assert (q - k) * whole == q * whole - k * whole;
  }

  /** The gradient as products: the baseline's share of the average between a half and one. */
  lemma GradientIsShare(minRTT: int, emaRTT: int)
    requires emaRTT > 0
    ensures var g := Gradient(minRTT, emaRTT);
            && (emaRTT <= minRTT ==> g == 1.0)
            && (minRTT <= emaRTT <= 2 * minRTT ==> g * emaRTT as real == minRTT as real)
            && (2 * minRTT <= emaRTT ==> g == 0.5)
  {
    var m, e := minRTT as real, emaRTT as real;
    QuotientCompares(m, e, 0.5);
    QuotientCompares(m, e, 1.0);
    var q := m / e;
    assert q * e == m;
  }

  lemma RootIsPositive(root: real, limit: int)
    requires IsRoot(root, limit) && limit >= 1
    ensures root >= 1.0
  {
    if root < 1.0 {
      Scale(root, 1.0, root);
    }
  }

  /** Where the average is at the baseline, the limit grows by its floored root up to MaxLimit. */
  lemma GradientAtBaseline(cfg: Config, limit: int, rtt: int, root: real)
    requires cfg.Usable() && cfg.minLimit <= limit <= cfg.maxLimit && rtt > 0 && IsRoot(root, limit)
    ensures GradientTarget(cfg, limit, rtt, rtt, root) == Min(limit + root.Floor, cfg.maxLimit)
    ensures root.Floor >= 1
  {
    GradientIsShare(rtt, rtt);
    RootIsPositive(root, limit);
    assert rtt as real / rtt as real == 1.0;
    assert (limit as real * 1.0 + root).Floor == limit + root.Floor;
  }

  /** What the limit loses to latency before its root is added, as a product: the queueing share
      of the average, at most a half. */
  predicate Costs(limit: int, minRTT: int, emaRTT: int, gain: real)
    requires emaRTT > 0
  {
    if emaRTT <= minRTT then gain < 0.0
    else if emaRTT <= 2 * minRTT then gain * emaRTT as real < limit as real * (emaRTT - minRTT) as real
    else 2.0 * gain < limit as real
  }

  lemma CostsMeaning(limit: int, minRTT: int, emaRTT: int, gain: real)
    requires emaRTT > 0 && limit >= 1
    ensures Costs(limit, minRTT, emaRTT, gain) <==> limit as real * Gradient(minRTT, emaRTT) + gain < limit as real
  {
    var g, l, e, m := Gradient(minRTT, emaRTT), limit as real, emaRTT as real, minRTT as real;
    GradientIsShare(minRTT, emaRTT);
    if minRTT < emaRTT <= 2 * minRTT {
      assert l * (e - m) == l * e - l * (g * e);
      assert l * (g * e) == (l * g) * e;
      var left := l - l * g - gain;
      assert left * e == l * e - (l * g) * e - gain * e;
      assert left > 0.0 <==> left * e > 0.0;
    }
  }

  /** Comparing a floor with a whole number is comparing the real. */
  lemma FloorCompares(x: real, n: int)
    ensures x.Floor >= n <==> x >= n as real
  {
  }

  /** What Gradient2 asks for, exactly: between the bounds, at least n when latency costs the limit
      no more than its root less the way from the limit up to n. */
  lemma GradientTargetExactly(cfg: Config, limit: int, minRTT: int, emaRTT: int, root: real, n: int)
    requires cfg.Usable() && limit >= 1 && emaRTT > 0
    ensures var target := GradientTarget(cfg, limit, minRTT, emaRTT, root);
            && cfg.minLimit <= target <= cfg.maxLimit
            && (cfg.minLimit < n <= cfg.maxLimit ==>
                  (target >= n <==> !Costs(limit, minRTT, emaRTT, root - (n - limit) as real)))
  {
    CostsMeaning(limit, minRTT, emaRTT, root - (n - limit) as real);
    FloorCompares(limit as real * Gradient(minRTT, emaRTT) + root, n);
  }

  /** So it lowers the limit exactly when latency costs it more than its root and it is above
      MinLimit, and raises it exactly when latency leaves at least one of its root and there is
      room. */
  lemma GradientLaw(cfg: Config, limit: int, minRTT: int, emaRTT: int, root: real)
    requires cfg.Usable() && cfg.minLimit <= limit <= cfg.maxLimit && emaRTT > 0
    ensures var target := GradientTarget(cfg, limit, minRTT, emaRTT, root);
            && (target < limit <==> Costs(limit, minRTT, emaRTT, root) && limit > cfg.minLimit)
            && (target > limit <==> !Costs(limit, minRTT, emaRTT, root - 1.0) && limit < cfg.maxLimit)
  {
    GradientTargetExactly(cfg, limit, minRTT, emaRTT, root, limit);
    GradientTargetExactly(cfg, limit, minRTT, emaRTT, root, limit + 1);
  }

  lemma ShareGrows(l: real, m: real, shorter: real, longer: real, gain: real)
    requires l > 0.0 && m > 0.0 && 0.0 < shorter <= longer
    requires gain * shorter < l * (shorter - m)
    ensures gain * longer < l * (longer - m)
    ensures 2.0 * m >= shorter ==> 2.0 * gain < l
  {
    var left := l - gain;
    SignOfProduct(l, m);
    Expand(l, gain, m, shorter);
    Expand(l, gain, m, longer);
    assert left * shorter > l * m;
    SignOfProduct(left, shorter);
    Grow(left, shorter, longer);
    if 2.0 * m >= shorter {
      Grow(l, shorter, 2.0 * m);
      assert l * (2.0 * m) == 2.0 * (l * m);
      SignOfProduct(2.0 * left - l, shorter);
      assert (2.0 * left - l) * shorter == 2.0 * (left * shorter) - l * shorter;
    }
  }

  lemma Grow(k: real, a: real, b: real)
    requires k >= 0.0 && a <= b
    ensures k * a <= k * b
  {
    assert k * (b - a) >= 0.0;
  }

  lemma Expand(l: real, gain: real, m: real, e: real)
    ensures gain * e < l * (e - m) <==> (l - gain) * e > l * m
  {
    assert l * (e - m) == l * e - l * m;
    assert (l - gain) * e == l * e - gain * e;
  }

  lemma BelowPositive(gain: real, b: real, l: real, d: real)
    requires gain < 0.0 && b > 0.0 && l > 0.0 && d > 0.0
    ensures gain * b < 0.0 < l * d
  {
    SignOfProduct(gain, b);
    SignOfProduct(l, d);
  }

  lemma CostsGrow(limit: int, minRTT: int, shorter: int, longer: int, gain: real)
    requires limit >= 1 && minRTT > 0 && 0 < shorter <= longer && Costs(limit, minRTT, shorter, gain)
    ensures Costs(limit, minRTT, longer, gain)
  {
    var l, m, a, b := limit as real, minRTT as real, shorter as real, longer as real;
    if shorter <= minRTT < longer {
      var d := (longer - minRTT) as real;
      BelowPositive(gain, b, l, d);
    } else if minRTT < shorter <= 2 * minRTT {
      ShareGrows(l, m, a, b, gain);
    }
  }

  /** What it asks for as a function of the average. */
  function TargetAt(cfg: Config, limit: int, minRTT: int, root: real): int --> int {
    (emaRTT: int) requires emaRTT > 0 => GradientTarget(cfg, limit, minRTT, emaRTT, root)
  }

  ghost predicate Falling(f: int --> int) {
    forall a, b :: 0 < a <= b && f.requires(a) && f.requires(b) ==> f(b) <= f(a)
  }

  ghost predicate FollowsCosts(cfg: Config, limit: int, minRTT: int, root: real, f: int --> int) {
    forall e, n :: e > 0 && f.requires(e) ==> FollowsCostsAt(cfg, limit, minRTT, root, f, e, n)
  }

  ghost predicate FollowsCostsAt(cfg: Config, limit: int, minRTT: int, root: real, f: int --> int, e: int, n: int)
    requires e > 0 && f.requires(e)
  {
    && cfg.minLimit <= f(e) <= cfg.maxLimit
    && (cfg.minLimit < n <= cfg.maxLimit ==> (f(e) >= n <==> !Costs(limit, minRTT, e, root - (n - limit) as real)))
  }

  lemma FollowingFalls(cfg: Config, limit: int, minRTT: int, root: real, f: int --> int)
    requires limit >= 1 && minRTT > 0 && FollowsCosts(cfg, limit, minRTT, root, f)
    ensures Falling(f)
  {
    forall a, b | 0 < a <= b && f.requires(a) && f.requires(b)
      ensures f(b) <= f(a)
    {
      var n := f(b);
      assert FollowsCostsAt(cfg, limit, minRTT, root, f, a, n);
      assert FollowsCostsAt(cfg, limit, minRTT, root, f, b, n);
      if n > cfg.minLimit && Costs(limit, minRTT, a, root - (n - limit) as real) {
        CostsGrow(limit, minRTT, a, b, root - (n - limit) as real);
      }
    }
  }

  /** A longer average never asks for a larger limit. */
  lemma GradientFallsWithLatency(cfg: Config, limit: int, minRTT: int, root: real)
    requires cfg.Usable() && limit >= 1 && minRTT > 0
    ensures Falling(TargetAt(cfg, limit, minRTT, root))
  {
    var f := TargetAt(cfg, limit, minRTT, root);
    forall e, n | e > 0 && f.requires(e)
      ensures FollowsCostsAt(cfg, limit, minRTT, root, f, e, n)
    {
      GradientTargetExactly(cfg, limit, minRTT, e, root, n);
    }
    FollowingFalls(cfg, limit, minRTT, root, f);
  }
}
