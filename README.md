# Hyperband scheduler, modelled in Dafny

This project models the scheduling core of a small Python implementation of
Hyperband (Li, Jamieson, DeSalvo, Rostamizadeh and Talwalkar, JMLR 18, 2018).
Hyperband tunes hyperparameters by running several brackets of successive
halving. Bracket `s` samples `n` configurations, evaluates them at a minimum
resource `r`, and repeatedly keeps the best `1/eta` of them at `eta` times the
resource. The repository has two variants:

- `hyperband.py`: a sequential `Hyperband` whose `step_generator` runs one
  bracket per step and yields the best configuration seen so far. Its `run`
  drains the generator.
- `hyperband_distributed.py`: a stand-alone `successive_halving` submitted
  once per bracket. Its `run` takes `min` by loss over the bracket results.

Modules, one concept each:

| file | module | what it holds |
|---|---|---|
| `common.dfy` | `Common` | `ConfigEvaluation`, the error kinds, `Result`, the sampler's contract |
| `arith.dfy` | `Arith` | exact powers, floor-logarithm and ceiling division, standing in for `math.log`, `**`, `floor`, `ceil` |
| `schedule.dfy` | `BracketPlanner` | constructor validation, `s_max`, `B`, each bracket's `(n, r)`, each rung's `n_i`, `r_i` and cull size |
| `top_k.dfy` | `TopKSelection` | `_top_k` |
| `halving.dfy` | `Halving` | the rung loop of one bracket, and the stand-alone rung count |
| `aggregate.dfy` | `Aggregate` | the generator's best-so-far fold and `min(..., key=loss)` |
| `brackets.dfy` | `Brackets` | the brackets both variants run, the rule that fixes their rung counts, and the list of bracket results |
| `hyperband.dfy` | `Sequential` | the `Hyperband` class, its generator (a `Generator` class with a `Next` step) and `run` |
| `hyperband_distributed.dfy` | `Distributed` | `successive_halving`, the distributed `Hyperband` class and its `run` |

Idealisation: `R` and `eta` are integers. A valid schedule has `R >= 1` and
`eta >= 2`, so `floor(log_eta R)` is the exact integer logarithm and
`n_i = floor(n * eta^-i)` is `n / eta^i`. The resources `r` and `r_i` and
all losses are `real`. Configurations are an opaque type parameter. The
sampler `get_hyperparameter_configuration` is a function `nat -> seq<C>`
that returns exactly `m` configurations when asked for `m`. The evaluator
`run_then_return_val_loss` is a function `(C, real) -> real`.

The stateful parts are imperative:
- `Hyperband` is a class holding the sampler, the evaluator and the schedule
  `(R, eta, s_max, B)`.
- The generator is a class whose fields are the next bracket `s` and
  `best_config`. `Next` runs one bracket, updates `best_config` and yields.
- The rung loop is a method whose loop reassigns `T` and `losses`.
- The distributed `run` appends one result per bracket to `futures`.

Each method is proved against a specification function (`Rungs`, `Winners`,
`BestOf`, `BestSoFar`, `RunResult`, `HalvingResult`), and the lemmas state
what the source promises about those functions. The class invariants leave
`s_max` free, so both `run` methods are proved for every integer `s_max`.
That includes a negative one, which is the source's empty-schedule error
path.

## Model

| member | source | states |
|---|---|---|
| TopKSelection.TopK | hyperband.py:27-33 | with `k >= 1` and non-empty input: returns `min(k, n)` configurations and as many losses; the losses ascend; every returned (config, loss) pair was a pair of the input (sub-multiset); every kept loss is at most every dropped pair's loss |
| TopKSelection.TopKHeadIsMin | hyperband_distributed.py:34-40 | the first kept loss is the minimum of all input losses, and the first kept pair is an input pair |
| TopKSelection.TopKAllIsPermutation | hyperband.py:32 | when `k` is at least the input length, nothing is dropped: the result is a permutation of the input pairs |
| TopKSelection.KeptBeforeDropped | hyperband.py:32 | a loss-sorted list cut at `m`: the kept prefix is sorted, the dropped suffix is exactly the multiset difference, and no dropped loss is below a kept one |
| TopKSelection.SelectionHead | hyperband_distributed.py:39 | a selection that is a sorted sub-multiset with no dropped entry below a kept one starts with an input entry of least loss |
| TopKSelection.InsertSorted | hyperband.py:32 | insertion into a loss-sorted list keeps it sorted, and the new head is the inserted pair or the old head |
| TopKSelection.InsertPermutes | hyperband.py:32 | insertion adds exactly the inserted pair |
| TopKSelection.SortSorted | hyperband.py:32 | the sort's output is sorted by loss |
| TopKSelection.SortPermutes | hyperband.py:32 | the sort's output is a permutation of its input |
| Common.Min | hyperband_distributed.py:39 | the smaller of two integers: at most both, and one of them |
| Common.Max | hyperband.py:100 | the larger of two integers: at least both, and one of them |
| Arith.Pow | hyperband.py:92-93 | `eta ** s` for integer `eta` and `s`, at least 1 when `eta >= 1` |
| Arith.CeilDiv | hyperband.py:92 | `math.ceil(a / b)` for `b >= 1`, positive when `a` is |
| Arith.ILog | hyperband.py:79 | `floor(log_eta x)` for integer `eta >= 2`, `x >= 1`: the `s` with `eta^s <= x < eta^(s+1)` |
| Arith.ILogAtLeast | hyperband_distributed.py:67 | any `s` with `eta^s <= x` is at most `floor(log_eta x)` |
| Arith.CeilDivBounds | hyperband.py:92 | `ceil(a / b)` is the least `q` with `a <= b * q` |
| BracketPlanner.Plan | hyperband.py:71-80 | the constructor fails exactly when `R < 1` (ValueError, checked first), `eta <= 0` (ValueError) or `eta == 1` (ZeroDivisionError inside `math.log`); otherwise it stores `R` and `eta`, `s_max = floor(log_eta R) >= 0` with `eta^s_max <= R < eta^(s_max+1)`, and `B = (s_max + 1) * R` |
| BracketPlanner.BracketCount | hyperband.py:91 | the number of values in `range(s_max, -1, -1)`: zero exactly when `s_max < 0`, and otherwise the last one is `s = 0` |
| BracketPlanner.MinResource | hyperband.py:93 | `r = R * eta^-s` is positive |
| BracketPlanner.BracketSizeIsCeiling | hyperband.py:92 | `n` is the ceiling of `(s_max + 1) * eta^s / (s + 1)` (R cancels), and `n >= eta^s` |
| BracketPlanner.BracketSize | hyperband.py:92 | every bracket samples at least one configuration |
| BracketPlanner.MinResourceScales | hyperband.py:93 | `r = R * eta^-s` is positive and `r * eta^s == R` |
| BracketPlanner.Schedule81 | hyperband.py:91-93 | for `R = 81`, `eta = 3`: `s_max = 4`, `B = 405`, and `(n, r)` is `(81, 1), (34, 3), (15, 9), (8, 27), (5, 81)` for `s = 4 .. 0` |
| BracketPlanner.RungSize | hyperband.py:97 | `n_i = floor(n * eta^-i)` is at most `n` |
| BracketPlanner.RungResource | hyperband.py:98 | `r_i = r * eta^i`; the first rung gets `r` itself |
| BracketPlanner.CullSize | hyperband.py:100 | `max(1, floor(n_i / eta))` is at least 1 and at most `max(1, n_i)` |
| BracketPlanner.RungSizeStep | hyperband.py:97 | `n_(i+1) = n_i / eta`, so `n_(i+1) <= n_i` |
| BracketPlanner.RungSizeNonIncreasing | hyperband.py:97 | `n_i` is non-increasing in `i` |
| BracketPlanner.RungResourceStep | hyperband.py:98 | `r_(i+1) = r_i * eta` |
| BracketPlanner.RungResourceNonDecreasing | hyperband.py:98 | `r_i` is non-decreasing in `i` for `r >= 0` |
| BracketPlanner.CullSizeBounds | hyperband.py:100 | the cull size `max(1, floor(n_i / eta))` is at least 1, at most `max(1, n_i)`, and equals `max(1, n_(i+1))` |
| BracketPlanner.BracketStaysWithinR | hyperband.py:96-98 | in bracket `s`, the last rung `i = s` runs at exactly `R`, no rung runs above `R`, and every rung's `n_i >= 1` |
| BracketPlanner.LastRungAtR | hyperband.py:98 | the last rung's resource `r * eta^s` equals `R` |
| BracketPlanner.RungsNonEmpty | hyperband.py:97 | every rung `i <= s` of bracket `s` has `n_i >= 1` |
| Halving.Evaluate | hyperband.py:99 | one loss per configuration of the rung, as in `hyperband_distributed.py:75-76` |
| Halving.Rung | hyperband.py:99-100 | one rung keeps `min(k, len(T))` survivors for the cull size `k`, with one loss each, in ascending order of loss |
| Halving.Rungs | hyperband.py:96-100 | after at least one rung, there is one loss per survivor, and at least one survivor remains |
| Halving.HalveRungs | hyperband.py:96-100 | the rung loop leaves `T` and `losses` equal to the survivors and losses after `count` rungs |
| Halving.PopulationSize | hyperband.py:94-100 | when the sampler returns `n` configurations, the population entering rung `i` is `max(1, n_i)` |
| Halving.CullKeepsCullSize | hyperband.py:100 | a rung entered by `max(1, n_i)` survivors leaves exactly `max(1, n_(i+1))` |
| Halving.SurvivorsAreSampled | hyperband.py:94-100 | every survivor after any number of rungs is one of the sampled configurations |
| Halving.Winner | hyperband.py:103 | `(T[0], losses[0])` after the last rung (also `hyperband_distributed.py:81`) is a sampled configuration carrying its own evaluation at the last rung's resource |
| Halving.RungCount | hyperband_distributed.py:67-69 | `floor(log_eta n) + 1` rungs, at least one; the last rung run has `n_i >= 1` and the next one would have `n_i == 0` |
| Halving.SurvivorsKeepTheirLosses | hyperband_distributed.py:75-79 | every survivor of a rung is one of its entrants, and its kept loss is its own evaluation at `r_i` |
| Halving.WinnerIsBestOfLastRung | hyperband_distributed.py:79-81 | `(T[0], losses[0])` is a survivor of the final rung, with its evaluation at the final resource, and no final-rung survivor evaluated lower |
| Aggregate.BestOf | hyperband.py:102-103 | `best_config` after some bracket results: none exactly when there are none, otherwise one of them with the least loss |
| Aggregate.BestOfSnoc | hyperband.py:102-105 | one more bracket result replaces `best_config` only when `best_config` is None or the new loss is strictly lower, and one more value is yielded |
| Aggregate.BestOfPrefixStep | hyperband.py:102-105 | the same step, stated for the first `d` results of a list |
| Aggregate.BestSoFar | hyperband.py:105 | one yielded value per bracket result |
| Aggregate.BestSoFarAt | hyperband.py:105 | the `j`-th yielded value is the best of the first `j + 1` bracket results |
| Aggregate.BestSoFarMonotone | hyperband.py:102-105 | yielded losses never increase, and the last yielded value is the best over all bracket results |
| Aggregate.MinFrom | hyperband_distributed.py:161 | the running minimum from a current entry over the rest is one of them, with a loss at most every other's |
| Aggregate.MinByLoss | hyperband_distributed.py:161 | `min` by loss raises ValueError exactly on an empty list |
| Aggregate.MinByLossIsBestOf | hyperband_distributed.py:161 | on a non-empty list, `min` by loss picks the same entry as the generator's strict-less fold, so it is an entry of least loss |
| Brackets.BracketRungs | hyperband.py:96 | bracket `s` runs `s + 1` rungs (`range(s + 1)`), or `floor(log_eta n) + 1` in the distributed variant (`hyperband_distributed.py:67-68`); either way at least `s + 1` |
| Brackets.AtLeastSequentialRungs | hyperband_distributed.py:67 | every bracket of the distributed variant runs at least `s + 1` rungs, as many as the sequential variant at hyperband.py:96 or more |
| Brackets.IndexRungsWithinR | hyperband.py:96-98 | with `s + 1` rungs, every rung a bracket runs is allocated at most `R` and has `n_i >= 1` |
| Brackets.BracketWinner | hyperband.py:92-103 | bracket `s` (`hyperband_distributed.py:148-149` and `66-81` in the other variant) returns one of the configurations sampled for it |
| Brackets.Winners | hyperband.py:91 | one bracket result per `s` in `range(s_max, -1, -1)` (also `hyperband_distributed.py:147`), none when `s_max < 0` |
| Brackets.ResultsOfIsWinners | hyperband.py:91-100 | a list holds bracket `s`'s result at position `s_max - s` for every `s` exactly when it is the bracket results in run order; this is the form the class invariants use |
| Sequential.RunResult | hyperband.py:119-127 | `run` raises RuntimeError exactly when `s_max < 0`; otherwise it returns a bracket result of least loss, which is the last yielded value |
| Sequential.RunResultOf | hyperband.py:119-127 | `run`'s result is the best-so-far fold of any such list |
| Sequential.RunBracket | hyperband.py:92-103 | one bracket with `n = BracketSize`, `r = MinResource` and `s + 1` rungs gives `(T[0], losses[0])`, which is bracket `s`'s result |
| Sequential.GeneratorYields | hyperband.py:91-105 | the generator yields exactly `s_max + 1` values (none for negative `s_max`), with non-increasing losses |
| Sequential.Hyperband.constructor | hyperband.py:68-80 | the object holds the given sampler, evaluator and a valid schedule |
| Sequential.Hyperband.New | hyperband.py:61-80 | the constructor's errors are exactly `Plan`'s; otherwise a fresh valid object with `Plan`'s schedule |
| Sequential.Hyperband.StepGenerator | hyperband.py:82-91 | a fresh generator positioned at `s = s_max`, with `best_config` None and nothing yielded |
| Sequential.Hyperband.Run | hyperband.py:107-127 | draining the generator gives `RunResult` |
| Sequential.Generator.constructor | hyperband.py:90-91 | the generator starts at `s_max` with `best_config` None |
| Sequential.Generator.Next | hyperband.py:91-105 | past `s = 0` it stops (StopIteration) and changes nothing; otherwise it runs bracket `s`, moves to `s - 1`, yields the new `best_config`, and keeps `best_config` and the yielded values equal to the fold over the brackets run so far |
| Distributed.HalvingResult | hyperband_distributed.py:43-81 | ValueError from `math.log` when `n < 1` or `eta <= 0`; ZeroDivisionError when `eta == 1`; otherwise a result |
| Distributed.HalvingResultIsBestOfLastRung | hyperband_distributed.py:66-81 | a successful result is a survivor of the final rung `floor(log_eta n)`, with its evaluation at `r * eta^s`, and no final-rung survivor evaluated lower |
| Distributed.SuccessiveHalving | hyperband_distributed.py:66-81 | the sampling and rung loop compute `HalvingResult`, including its error cases |
| Distributed.RunResult | hyperband_distributed.py:161 | `run` raises ValueError (`min` of an empty list) exactly when `s_max < 0`; otherwise it returns a bracket result of least loss |
| Distributed.RunResultOf | hyperband_distributed.py:161 | `run`'s result is `min` by loss of any such list |
| Distributed.Submit | hyperband_distributed.py:148-160 | submitting bracket `s` with `n = BracketSize`, `r = MinResource` gives bracket `s`'s result |
| Distributed.ExtraRungsExceedR | hyperband_distributed.py:67-70 | any rung beyond the sequential variant's last one (`i > s`) runs at a resource above `R` |
| Distributed.PopulationRungsExceedR | hyperband_distributed.py:67-70 | whenever `floor(log_eta n) + 1` exceeds `s + 1`, the last rung bracket `s` runs is allocated more than `R` |
| Distributed.Bracket0Of81 | hyperband_distributed.py:148-149 | for `R = 81`, `eta = 3`, bracket 0 has `n = 5`, `r = 81`, and runs 2 rungs, the second at 243 |
| Distributed.Hyperband.constructor | hyperband_distributed.py:116-128 | the object holds the given sampler, evaluator and a valid schedule |
| Distributed.Hyperband.New | hyperband_distributed.py:108-128 | the same validation and schedule as the sequential constructor |
| Distributed.Hyperband.Run | hyperband_distributed.py:138-161 | one submission per bracket, then `min` by loss over the gathered results, which is `RunResult` |

## Left out

- `hyperband_demo.py` is not part of this model. It does random sampling, argument parsing, cluster provisioning and printing.
- The dask plumbing is not modelled: `get_client`, `secede`/`rejoin`, `client.map`/`submit`/`gather`, `LocalCluster` and the `client` field. Rung evaluations are an ordered map, and brackets run one after another in submission order. The gathered results are in that order, which is the order `run` sees.
- Floating-point `math.log`, `**`, `floor` and `ceil` are not modelled. The model uses exact integer powers and logarithms, so it does not reproduce a float logarithm that lands just below an exact power.
- Fractional `R` and `eta` are not modelled. `Plan`, and both `New` methods built on it, take integer `R` and `eta`, so they never produce a negative `s_max`. A `0 < eta < 1` with `R > 1` gives a negative `s_max`. Its empty-schedule behaviour is still covered, because both `Run` methods are proved for any integer `s_max`.
- NaN losses are not modelled. Losses are real numbers, and every comparison is total.
- TopKSelection.TopK: ties are broken by a stable sort, not by `heapq.nsmallest`'s comparison of `(loss, config)` tuples, which needs ordered configurations. Only tie-independent facts are stated: length, ascending losses, pairs preserved, kept not above dropped.
- TopKSelection.TopK: requires non-empty input. In the source, an empty input fails when the result is unpacked. Every call in both variants passes a non-empty population, given the sampler's contract.
- Sequential.Generator.Next: the generator's laziness and single use are not modelled beyond the explicit stepping object. Its `winners` and `yielded` fields are ghost bookkeeping.
- The sampler and evaluator are modelled as pure functions, so repeated calls give the same result. The real ones draw random configurations and train models.
- `ConfigEvaluation.__str__` is not modelled. It is float formatting only.
- Exceptions raised by the sampler or the evaluator are not modelled. Both are total functions here. In the source, an exception from `get_hyperparameter_configuration` or `run_then_return_val_loss` propagates out of the rung, the bracket and `run`.
- The default `eta = 3.0` of both constructors (hyperband.py:66, hyperband_distributed.py:113) is not modelled. `Sequential.Hyperband.New` and `Distributed.Hyperband.New` take `eta` explicitly; a caller relying on the default passes 3.

## Findings

| source | as written | input that shows it | evidently intended | confidence | as-written member | corrected member |
|---|---|---|---|---|---|---|
| hyperband_distributed.py:67-70 | `successive_halving` runs `floor(log_eta n) + 1` rungs, recomputed from `n`, so bracket `s` can run rungs past `i = s`, at `r * eta^i > R` | `R = 81`, `eta = 3`, bracket `s = 0`: `n = 5`, `r = 81`, `floor(log_3 5) = 1`, so a second rung runs at `r_1 = 243 > 81` (`Distributed.Bracket0Of81`) | `R` is the most any configuration is allocated (hyperband_distributed.py:95-96), as in the sequential variant's `s + 1` rungs (hyperband.py:96) | medium; not executed | Distributed.PopulationRungsExceedR | Brackets.IndexRungsWithinR |

The sequential variant, and the bound lemmas in `BracketPlanner`, use the `s + 1` rung rule. `Distributed` keeps the code as written, so that its `run` is the function the source computes.
