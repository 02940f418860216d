# Reception projection model

A Dafny model of the reception projection of the NFL projection API
(`project_receptions`, `main.py`). The endpoint takes eight numbers that
describe a receiver. It blends recent and season route counts, targets per
route run (TPRR) and catch rates into an expected number of receptions λ.
It then treats λ as the mean of a Poisson distribution. The probability
that the player goes over the sportsbook line is one minus the Poisson
distribution function at the floor of the line.

Everything lives in one module, `Receptions` (`receptions.dfy`):

- `PlayerInput` is the request record of eight reals and `ProjectionResult` the
  two returned values.
- `RoutesProj`, `TprrProj`, `TargetsProj`, `CatchRateProj` and `RecProj`
  are the blending steps. `LineFloor` is `math.floor`.
- `Pow` and `Factorial` are `**` and `math.factorial`. `Summand` is one term
  `exp(-λ) * λ**k / k!`. `SumRange` is the generator sum over `range(n)`.
  `PoissonCdf` and `OverProbability` complete the computation.
- `ProjectReceptions` is the whole endpoint.
- `PoissonCdfByRecurrence` computes the same sum with the incremental
  recurrence term₀ = exp(-λ), termₖ = termₖ₋₁·λ/k. This recurrence avoids
  forming λᵏ and k! separately. It is proved equal to the direct sum.

Python floats are modelled as `real`, so all arithmetic except the
exponential is exact. `math.exp` is a parameter `exp: real -> real` of the
model. The lemmas that need its values assume only `ExpLike(exp)`:
`exp(0) == 1` and `exp` is positive everywhere.

The code validates no input, and the model adds no error path either. A
negative line gives an empty `range`, so the sum is 0 and the over
probability is 1. A negative matchup factor or an out-of-range rate is used
as it is. `ProjectReceptions` follows the code's direct sum; the recurrence
is provided alongside it and proved to compute the same value.

## Model

| member | source | states |
|---|---|---|
| `Receptions.RoutesProj` | main.py:20 | the 0.6/0.4 blend of routes lies between the smaller and the larger of the two route inputs |
| `Receptions.TprrProj` | main.py:21 | the 0.6/0.4 blend of TPRR lies between the smaller and the larger of the two TPRR inputs |
| `Receptions.TargetsProj` | main.py:20-22 | projected targets are non-negative when the route and TPRR inputs are |
| `Receptions.CatchRateProj` | main.py:24 | the 0.7/0.3 catch-rate blend lies between its two inputs, so it is in [0, 1] when both catch rates are |
| `Receptions.RecProj` | main.py:20-26 | λ is non-negative when every rate input and the matchup factor are non-negative |
| `Receptions.RecProjLinearInMatchup` | main.py:22-26 | λ is a linear function of the matchup factor |
| `Receptions.RecProjMonotoneInMatchup` | main.py:22-26 | when targets × catch rate is non-negative, a larger matchup factor never gives a smaller λ |
| `Receptions.LineFloor` | main.py:28 | L ≤ line < L + 1; L ≥ 0 when line ≥ 0; L ≤ -1 when line < 0 |
| `Receptions.LineFloorUnique` | main.py:28 | L is the only integer n with n ≤ line < n + 1 |
| `Receptions.LineFloorMonotone` | main.py:28 | a higher line never has a lower floor |
| `Receptions.ExpLike` | main.py:31 | no contract: the model's assumption about `math.exp`, namely exp(0) = 1 and exp positive everywhere; required by `ZeroMeanIsNeverOver`, `OverProbabilityAntitone` and `ProjectReceptionsAntitoneInLine` |
| `Receptions.Pow` | main.py:31 | no contract of its own: `lam**k`; its properties are in `PowNonNegative` and `PowZero` |
| `Receptions.PowNonNegative` | main.py:31 | `x ** k` is non-negative for x ≥ 0 |
| `Receptions.PowZero` | main.py:31 | `0.0 ** k` is 1 for k = 0 and 0 otherwise, as in Python |
| `Receptions.Factorial` | main.py:31 | `math.factorial(k)` is at least 1, so the division by it is defined |
| `Receptions.Summand` | main.py:31 | no contract of its own: one term `exp(-lam) * lam**k / math.factorial(k)`; its properties are in `SummandNonNegative`, `SummandAtZeroMean` and `SummandRecurrence` |
| `Receptions.SummandNonNegative` | main.py:31 | every summand exp(-λ)·λᵏ/k! is non-negative when λ ≥ 0 and exp(-λ) ≥ 0 |
| `Receptions.SummandAtZeroMean` | main.py:31 | with λ = 0 the k = 0 summand is exp(-λ) and every other summand is 0 |
| `Receptions.SummandRecurrence` | main.py:31 | the first summand is exp(-λ) and each next summand is the previous one times λ/(k+1) |
| `Receptions.NextSummand` | main.py:31 | multiplying the summand at k by λ/(k+1) gives the summand at k + 1 |
| `Receptions.RangeLength` | main.py:31 | no contract of its own: the length of `range(L + 1)`, 0 when L < 0; what it means for the sum is stated by `PoissonCdfStep` and `PoissonCdf` |
| `Receptions.SumRange` | main.py:31 | the generator `sum` over `range(n)`: non-negative when exp(-λ) ≥ 0 and λ ≥ 0, and equal to exp(-λ) when λ = 0 and n ≥ 1 |
| `Receptions.SumRangeMonotone` | main.py:31 | for λ ≥ 0 the partial sums never decrease as more summands are added |
| `Receptions.PoissonCdf` | main.py:28-31 | `poisson_cdf`: 0 for a negative bound (empty `range`), non-negative when exp(-λ) ≥ 0 and λ ≥ 0, and exp(0) when λ = 0 and the bound is ≥ 0 |
| `Receptions.PoissonCdfStep` | main.py:31 | the sum over `range(L + 1)` is 0 for L < 0, and for L ≥ 0 it is the sum for L − 1 plus the summand exp(-λ)·λᴸ/L! |
| `Receptions.PoissonCdfByRecurrence` | main.py:31 | the incremental recurrence computes exactly the model's distribution function `PoissonCdf` (the sum over `range(L + 1)` of the direct summands), for every bound |
| `Receptions.OverProbability` | main.py:28-32 | `prob_over = 1 - poisson_cdf`: 1 for a negative line whatever λ is, at most 1 when exp(-λ) ≥ 0 and λ ≥ 0, and 1 − exp(0) when λ = 0 and line ≥ 0 |
| `Receptions.ZeroMeanIsNeverOver` | main.py:28-32 | with λ = 0 and line ≥ 0 the sum is exp(0) = 1 and the over probability is 0 |
| `Receptions.LineBelowOneOverProbability` | main.py:28-32 | a line in [0, 1) gives L = 0 and an over probability of 1 − exp(-λ) |
| `Receptions.OverProbabilityAntitone` | main.py:28-32 | for a fixed λ ≥ 0, a higher line never gives a higher over probability |
| `Receptions.ProjectReceptions` | main.py:18-37 | the returned projection is non-negative for non-negative inputs, and a negative line gives an over probability of 1 |
| `Receptions.ProjectReceptionsAntitoneInLine` | main.py:18-32 | for non-negative inputs, raising only the line of a request never raises its over probability |
| `Receptions.WorkedExample` | main.py:20-28 | routes 20/18, TPRR 0.22/0.20, catch rates 0.75/0.70, matchup 1.0 and line 4.5 give routes 19.2, TPRR 0.212, targets 4.0704, catch rate 0.735, λ = 2.991744 and L = 4 |

## Left out

- The FastAPI application, the route decorator and pydantic parsing of `PlayerInput` (main.py:1-7, 17): HTTP plumbing. A missing or non-numeric field is rejected there, before the computation.
- `round(..., 2)` and `round(..., 3)` on the output (main.py:35-36): they round binary floats, which exact reals cannot reproduce. `ProjectReceptions` returns the unrounded values.
- The value of `math.exp(-λ)` (main.py:31): it is transcendental. The model takes the exponential as a parameter and assumes only `exp(0) == 1` and positivity.
- Receptions.OverProbability: proves only the upper bound 1. The lower bound 0 needs Σ λᵏ/k! ≤ e^λ, a fact about the exponential that the model does not assume.
- Floating-point overflow and precision loss in `math.exp(-lam) * lam**k / math.factorial(k)` (main.py:31): in Python the overflows are exceptions, and the model returns a value instead. For any line ≥ 171 the division by `math.factorial(k)` converts an integer too large for a float and raises OverflowError whatever λ is; `lam**k` raises when the power exceeds the float range; `math.exp(-lam)` raises for λ below about −709.78.
- NaN or infinite inputs: an infinite or NaN `line` makes `math.floor` raise (main.py:28); in any of the other seven fields such a value is not rejected but flows through `rec_proj` and `lam` into the sum (main.py:20-31). Reals have neither value, so the model covers finite inputs only.
