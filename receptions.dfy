/**
 Reception projection of the NFL projection service.

 A player's expected receptions are obtained by blending recent and season
 route counts, target rates (targets per route run, TPRR) and catch rates,
 and scaling by a matchup factor. That expectation is taken as the mean of a
 Poisson distribution, and the probability that the reception count exceeds
 the sportsbook line is one minus the Poisson distribution function at the
 floor of the line.

 Python floats are modelled as `real`, so every step except the exponential
 is exact. The exponential is a parameter `exp` of the model; the lemmas that
 need its values assume only `ExpLike(exp)`: `exp(0) == 1` and `exp` is
 positive.
 */
module Receptions {

  // ---------------------------------------------------------------------------
  // Data model
  // ---------------------------------------------------------------------------

  /** The eight numeric fields of a projection request. */
  datatype PlayerInput = PlayerInput(
    routesL3: real,
    routesSeason: real,
    tprrL4: real,
    tprrSeason: real,
    catchRateSeason: real,
    catchRateL4: real,
    matchupFactor: real,
    line: real
  )

  /** The two values the endpoint returns (before rounding). */
  datatype ProjectionResult = ProjectionResult(projection: real, overProbability: real)

  /** What the model assumes of the exponential: `exp(0) == 1` and it is positive. */
  ghost predicate ExpLike(exp: real -> real)
  {
    exp(0.0) == 1.0 && forall x :: exp(x) > 0.0
  }

  function Min(a: real, b: real): real { if a <= b then a else b }

  function Max(a: real, b: real): real { if a <= b then b else a }

  /** The route, target-rate and catch-rate inputs are all non-negative. */
  predicate NonNegativeRates(p: PlayerInput)
  {
    && p.routesL3 >= 0.0 && p.routesSeason >= 0.0
    && p.tprrL4 >= 0.0 && p.tprrSeason >= 0.0
    && p.catchRateSeason >= 0.0 && p.catchRateL4 >= 0.0
  }

  // ---------------------------------------------------------------------------
  // Rate blending
  // ---------------------------------------------------------------------------

  /** Projected routes: 60% the last three games, 40% the season. */
  function RoutesProj(p: PlayerInput): (r: real)
    ensures Min(p.routesL3, p.routesSeason) <= r <= Max(p.routesL3, p.routesSeason)
  {
    (0.6 * p.routesL3) + (0.4 * p.routesSeason)
  }

  /** Projected targets per route run: 60% the last four games, 40% the season. */
  function TprrProj(p: PlayerInput): (r: real)
    ensures Min(p.tprrL4, p.tprrSeason) <= r <= Max(p.tprrL4, p.tprrSeason)
  {
    (0.6 * p.tprrL4) + (0.4 * p.tprrSeason)
  }

  /** Projected targets: projected routes times projected targets per route. */
  function TargetsProj(p: PlayerInput): (t: real)
    ensures (p.routesL3 >= 0.0 && p.routesSeason >= 0.0 && p.tprrL4 >= 0.0 && p.tprrSeason >= 0.0)
            ==> t >= 0.0
  {
    var routes, tprr := RoutesProj(p), TprrProj(p);
    ProductNonNegative(routes, tprr);
    routes * tprr
  }

  /** Projected catch rate: 70% the season, 30% the last four games. */
  function CatchRateProj(p: PlayerInput): (r: real)
    ensures Min(p.catchRateSeason, p.catchRateL4) <= r <= Max(p.catchRateSeason, p.catchRateL4)
    ensures 0.0 <= p.catchRateSeason <= 1.0 && 0.0 <= p.catchRateL4 <= 1.0 ==> 0.0 <= r <= 1.0
  {
    (0.7 * p.catchRateSeason) + (0.3 * p.catchRateL4)
  }

  /** Expected receptions, the Poisson mean lambda. Not clamped: negative
      inputs may give a negative value, which is returned as it is. */
  function RecProj(p: PlayerInput): (lam: real)
    ensures NonNegativeRates(p) && p.matchupFactor >= 0.0 ==> lam >= 0.0
  {
    var t, c := TargetsProj(p), CatchRateProj(p);
    ProductNonNegative(t, c);
    ProductNonNegative(t * c, p.matchupFactor);
    t * c * p.matchupFactor
  }

  lemma ProductNonNegative(a: real, b: real)
    ensures a >= 0.0 && b >= 0.0 ==> a * b >= 0.0
  {
  }

  // ---------------------------------------------------------------------------
  // The line
  // ---------------------------------------------------------------------------

  /** `math.floor` of the line: the greatest integer not above it. */
  function LineFloor(line: real): (n: int)
    ensures n as real <= line < n as real + 1.0
    ensures line >= 0.0 ==> n >= 0
    ensures line < 0.0 ==> n <= -1
  {
    line.Floor
  }

  /** The floor is the only integer `n` with `n <= line < n + 1`. */
  lemma LineFloorUnique(line: real, n: int)
    requires n as real <= line < n as real + 1.0
    ensures LineFloor(line) == n
  {
  }

  /** A higher line never has a lower floor. */
  lemma LineFloorMonotone(line1: real, line2: real)
    requires line1 <= line2
    ensures LineFloor(line1) <= LineFloor(line2)
  {
  }

  // ---------------------------------------------------------------------------
  // Poisson distribution function
  // ---------------------------------------------------------------------------

  /** `x ** k` for a natural exponent, with `0 ** 0 == 1` as in Python. */
  function Pow(x: real, k: nat): real
  {
    if k == 0 then 1.0 else x * Pow(x, k - 1)
  }

  lemma {:induction false} PowNonNegative(x: real, k: nat)
    requires x >= 0.0
    ensures Pow(x, k) >= 0.0
  {
    if k > 0 {
      PowNonNegative(x, k - 1);
      ProductNonNegative(x, Pow(x, k - 1));
    }
  }

  /** `0.0 ** 0 == 1.0`, and for `k > 0` the unfolding `0.0 * Pow(0.0, k - 1)`
      is `0.0` whatever the recursive value is. */
  lemma PowZero(k: nat)
    ensures Pow(0.0, k) == if k == 0 then 1.0 else 0.0
  {
  }

  /** `k!` as `math.factorial` computes it. */
  function Factorial(k: nat): (f: nat)
    ensures f >= 1
  {
    if k == 0 then 1 else k * Factorial(k - 1)
  }

  /** The k-th summand of the distribution function: `e * lam**k / k!`,
      where `e` stands for `exp(-lam)`. */
  function Summand(e: real, lam: real, k: nat): real
  {
    e * Pow(lam, k) / (Factorial(k) as real)
  }

  /** For a non-negative mean and a non-negative `exp(-lam)`, every summand is non-negative. */
  lemma SummandNonNegative(e: real, lam: real, k: nat)
    ensures e >= 0.0 && lam >= 0.0 ==> Summand(e, lam, k) >= 0.0
  {
    if e >= 0.0 && lam >= 0.0 {
      PowNonNegative(lam, k);
      ProductNonNegative(e, Pow(lam, k));
    }
  }

  /** With mean zero only the `k = 0` summand is non-zero, and it equals `e`. */
  lemma SummandAtZeroMean(e: real, k: nat)
    ensures Summand(e, 0.0, k) == if k == 0 then e else 0.0
  {
    PowZero(k);
  }

  /** The number of elements of `range(n)` in Python: zero when `n <= 0`. */
  function RangeLength(n: int): nat
  {
    if n <= 0 then 0 else n
  }

  /** `sum(Summand(e, lam, k) for k in range(n))`, added from `k = 0` upwards. */
  function SumRange(e: real, lam: real, n: nat): (r: real)
    ensures e >= 0.0 && lam >= 0.0 ==> r >= 0.0
    ensures lam == 0.0 && n >= 1 ==> r == e
  {
    if n == 0 then 0.0
    else
      SummandNonNegative(e, lam, n - 1);
      SummandAtZeroMean(e, n - 1);
      SumRange(e, lam, n - 1) + Summand(e, lam, n - 1)
  }

  /** Poisson distribution function at `bound`: the sum over `range(bound + 1)`. */
  function PoissonCdf(exp: real -> real, lam: real, bound: int): (r: real)
    ensures bound < 0 ==> r == 0.0
    ensures exp(-lam) >= 0.0 && lam >= 0.0 ==> r >= 0.0
    ensures lam == 0.0 && bound >= 0 ==> r == exp(0.0)
  {
    SumRange(exp(-lam), lam, RangeLength(bound + 1))
  }

  /** The distribution function at a non-negative bound adds the summand of
      that bound to the distribution function one below it; below zero it is
      the empty sum. */
  lemma PoissonCdfStep(exp: real -> real, lam: real, bound: int)
    ensures bound < 0 ==> PoissonCdf(exp, lam, bound) == 0.0
    ensures bound >= 0 ==>
      PoissonCdf(exp, lam, bound) == PoissonCdf(exp, lam, bound - 1) + Summand(exp(-lam), lam, bound)
  {
    if bound >= 0 {
      assert RangeLength(bound + 1) == RangeLength(bound) + 1;
    }
  }

  /** One minus the distribution function at the floor of the line. A
      negative line empties `range(L + 1)`, so the result is one whatever
      the mean. */
  function OverProbability(exp: real -> real, lam: real, line: real): (r: real)
    ensures line < 0.0 ==> r == 1.0
    ensures exp(-lam) >= 0.0 && lam >= 0.0 ==> r <= 1.0
    ensures lam == 0.0 && line >= 0.0 ==> r == 1.0 - exp(0.0)
  {
    1.0 - PoissonCdf(exp, lam, LineFloor(line))
  }

  /** The endpoint's computation, before its output is rounded. */
  function ProjectReceptions(p: PlayerInput, exp: real -> real): (r: ProjectionResult)
    ensures NonNegativeRates(p) && p.matchupFactor >= 0.0 ==> r.projection >= 0.0
    ensures p.line < 0.0 ==> r.overProbability == 1.0
  {
    var lam := RecProj(p);
    ProjectionResult(lam, OverProbability(exp, lam, p.line))
  }

  // ---------------------------------------------------------------------------
  // The incremental recurrence for the summands
  // ---------------------------------------------------------------------------

  /** The recurrence `term(k + 1) == term(k) * lam / (k + 1)` reproduces the
      summands term by term, starting from `term(0) == e`. */
  lemma SummandRecurrence(e: real, lam: real, k: nat)
    ensures Summand(e, lam, 0) == e
    ensures Summand(e, lam, k + 1) == Summand(e, lam, k) * lam / ((k + 1) as real)
  {
    var p, f := Pow(lam, k), Factorial(k) as real;
    var n := (k + 1) as real;
    ScaleStep(e, lam, p, n, f, Pow(lam, k + 1), Factorial(k + 1) as real);
  }

  /** One step of the recurrence: from the summand at `k` to the one at `k + 1`. */
  lemma NextSummand(e: real, lam: real, k: nat, term: real)
    requires term == Summand(e, lam, k)
    ensures term * lam / ((k + 1) as real) == Summand(e, lam, k + 1)
  {
    SummandRecurrence(e, lam, k);
    assert Summand(e, lam, k + 1) == Summand(e, lam, k) * lam / ((k + 1) as real);
  }

  /** `e * pNext / fNext == (e * p / f) * lam / n` when `pNext == lam * p`
      and `fNext == n * f` for positive `n` and `f`. */
  lemma ScaleStep(e: real, lam: real, p: real, n: real, f: real, pNext: real, fNext: real)
    requires n > 0.0 && f > 0.0
    requires pNext == lam * p && fNext == n * f
    ensures e * pNext / fNext == (e * p / f) * lam / n
  {
    var q := e * p / f;
    assert q * f == e * p;
    assert (q * lam / n) * (n * f) == q * lam * f;
    assert q * lam * f == e * (lam * p);
  }

  // ---------------------------------------------------------------------------
  // Properties of the distribution function and the over probability
  // ---------------------------------------------------------------------------

  /** With non-negative summands the partial sums never decrease. */
  lemma {:induction false} SumRangeMonotone(e: real, lam: real, m: nat, n: nat)
    requires e >= 0.0 && lam >= 0.0
    requires m <= n
    ensures SumRange(e, lam, m) <= SumRange(e, lam, n)
  {
    if m < n {
      SumRangeMonotone(e, lam, m, n - 1);
      SummandNonNegative(e, lam, n - 1);
    }
  }

  /** With mean zero and a non-negative line the sum is `exp(0) == 1`, so the
      over probability is zero. */
  lemma ZeroMeanIsNeverOver(exp: real -> real, line: real)
    requires ExpLike(exp)
    requires line >= 0.0
    ensures PoissonCdf(exp, 0.0, LineFloor(line)) == 1.0
    ensures OverProbability(exp, 0.0, line) == 0.0
  {
  }

  /** A line in `[0, 1)` leaves only the `k = 0` summand: the over probability
      is `1 - exp(-lam)`. */
  lemma LineBelowOneOverProbability(exp: real -> real, lam: real, line: real)
    requires 0.0 <= line < 1.0
    ensures OverProbability(exp, lam, line) == 1.0 - exp(-lam)
  {
    LineFloorUnique(line, 0);
    var e := exp(-lam);
    assert Summand(e, lam, 0) == e;
    assert SumRange(e, lam, 1) == SumRange(e, lam, 0) + Summand(e, lam, 0);
  }

  /** For a fixed non-negative mean, raising the line never raises the over
      probability. */
  lemma OverProbabilityAntitone(exp: real -> real, lam: real, line1: real, line2: real)
    requires ExpLike(exp)
    requires lam >= 0.0
    requires line1 <= line2
    ensures OverProbability(exp, lam, line2) <= OverProbability(exp, lam, line1)
  {
    assert exp(-lam) > 0.0;
    LineFloorMonotone(line1, line2);
    SumRangeMonotone(exp(-lam), lam,
      RangeLength(LineFloor(line1) + 1), RangeLength(LineFloor(line2) + 1));
  }

  // ---------------------------------------------------------------------------
  // Properties of the projection
  // ---------------------------------------------------------------------------

  /** The projection is linear in the matchup factor. */
  lemma RecProjLinearInMatchup(p: PlayerInput, a: real, m1: real, b: real, m2: real)
    ensures RecProj(p.(matchupFactor := a * m1 + b * m2))
         == a * RecProj(p.(matchupFactor := m1)) + b * RecProj(p.(matchupFactor := m2))
  {
    var tc := TargetsProj(p) * CatchRateProj(p);
    assert tc * (a * m1 + b * m2) == a * (tc * m1) + b * (tc * m2);
  }

  /** When projected targets times projected catch rate is non-negative,
      raising the matchup factor never lowers the projection. */
  lemma RecProjMonotoneInMatchup(p: PlayerInput, m1: real, m2: real)
    requires TargetsProj(p) * CatchRateProj(p) >= 0.0
    requires m1 <= m2
    ensures RecProj(p.(matchupFactor := m1)) <= RecProj(p.(matchupFactor := m2))
  {
    var tc := TargetsProj(p) * CatchRateProj(p);
    ProductNonNegative(tc, m2 - m1);
  }

  /** Raising only the line of a request never raises its over probability. */
  lemma ProjectReceptionsAntitoneInLine(p: PlayerInput, exp: real -> real, line: real)
    requires ExpLike(exp)
    requires NonNegativeRates(p) && p.matchupFactor >= 0.0
    requires p.line <= line
    ensures ProjectReceptions(p.(line := line), exp).overProbability
         <= ProjectReceptions(p, exp).overProbability
  {
    assert RecProj(p.(line := line)) == RecProj(p);
    OverProbabilityAntitone(exp, RecProj(p), p.line, line);
  }

  /** A worked request: 20 and 18 routes, TPRR 0.22 and 0.20, catch rates
      0.75 and 0.70, neutral matchup, line 4.5. */
  lemma WorkedExample()
    ensures var p := PlayerInput(20.0, 18.0, 0.22, 0.20, 0.75, 0.70, 1.0, 4.5);
      && RoutesProj(p) == 19.2
      && TprrProj(p) == 0.212
      && TargetsProj(p) == 4.0704
      && CatchRateProj(p) == 0.735
      && RecProj(p) == 2.991744
      && LineFloor(p.line) == 4
  {
    LineFloorUnique(4.5, 4);
  }

  // ---------------------------------------------------------------------------
  // The distribution function by the incremental recurrence
  // ---------------------------------------------------------------------------

  /** Computes the distribution function at `bound` without forming `lam**k`
      or `k!`: each summand is the previous one times `lam / k`, starting
      from `exp(-lam)`. */
  method PoissonCdfByRecurrence(exp: real -> real, lam: real, bound: int) returns (cdf: real)
    ensures cdf == PoissonCdf(exp, lam, bound)
  {
    var e := exp(-lam);
    var n := RangeLength(bound + 1);
    cdf := 0.0;
    var term := e;
    var k: nat := 0;
    while k < n
      invariant k <= n
      invariant term == Summand(e, lam, k)
      invariant cdf == SumRange(e, lam, k)
    {
      NextSummand(e, lam, k, term);
      cdf := cdf + term;
      term := term * lam / ((k + 1) as real);
      k := k + 1;
    }
  }
}
