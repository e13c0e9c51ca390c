# GC-bias fragment model

A Dafny model of salmon's GC-content bias histogram (`include/GCFragModel.hpp`).

Sequenced fragments are not drawn uniformly: GC-rich and GC-poor fragments are
over- or under-represented. salmon records this as a conditional histogram.
Each row is a bin of the GC percentile of a fragment's surrounding context.
Each column is the GC percentile of the fragment itself, one column per percentile 0..100.

- `GCDesc` carries the two percentiles of one fragment and maps them to bins.
- `GCFragModel` is the `condBins x numGCBins` table. It accumulates weights in LOG
  or LINEAR space, merges partial tables, and normalises each row into a
  smoothed probability distribution. It also divides two tables cell by cell into
  clamped correction ratios.

The model is functional. A `GCFragModel.Model` is an immutable record holding
the dimensions, the space tag, the `normalized` flag and a `seq<seq<real>>` of
counts. Every mutating member of the C++ class becomes a function that returns
the updated record. Arithmetic is over Dafny's exact `real`.

Files:

- `gc_desc.dfy`: module `GCDescriptor`, the bin descriptor.
- `log_math.dfy`: module `LogMath`. Its `LogArith` record holds the log-domain
  primitives (`LOG_0`, `logAdd`, `isLog0`, `log`, `exp`). These are defined outside
  the modelled code, so every operation takes them as a parameter and the model assumes
  nothing about their values.
- `tables.dfy`: module `Tables`, with table shapes, row sums and the sum lemmas.
- `gc_frag_model.dfy`: module `GCFragModel`, the model and its operations.
- `scenarios.dfy`: module `Scenarios`, worked examples on concrete inputs.

`distributionSpace()` is the record's `space` field, read through `GCFragModel.DistributionSpace`.
The lifecycle is Fresh, then any number of `inc`/`combineCounts`, then `normalize`.
`reset` returns to Fresh. `GCFragModel.Consistent` captures the lifecycle invariant
that a normalised model is LINEAR.

Three behaviours of the code shape the model's interface:

- `ratio` builds its result with the ordinary constructor (`GCFragModel.hpp:69`), so the
  result's `normalized` flag is false.
- `combineCounts` does not check that the two tables have the same shape, so equal shape
  is a precondition of `GCFragModel.CombineCounts`.
- `ratio` normalises both operands in place (lines 65-66), so `GCFragModel.Ratio` returns
  both normalised operands together with the new model, in `RatioOutcome`.

## Model

| member | source | states |
|---|---|---|
| GCDescriptor.BinOf | include/GCFragModel.hpp:19-26 | for a percentile in 0..100 and `n >= 1` the bin lies in `[0, n-1]`; percentile 100 lands in the top bin `n-1` because of the `min` clamp; the bin never starts past the percentile (`bin * 100 <= frac * n`) |
| GCDescriptor.FragBinN | include/GCFragModel.hpp:19-22 | `fragBin(n)` is a valid bin index in `[0, n-1]`, and percentile 100 maps to `n-1` |
| GCDescriptor.ContextBinN | include/GCFragModel.hpp:23-26 | `contextBin(n)` is a valid bin index in `[0, n-1]`, and percentile 100 maps to `n-1` |
| GCDescriptor.FragBin | include/GCFragModel.hpp:16 | the fixed-resolution `fragBin()` returns the raw percentile, which for a percentile in 0..100 is the bin `fragBin(101)` gives |
| GCDescriptor.ContextBin | include/GCFragModel.hpp:17 | the fixed-resolution `contextBin()` returns the raw percentile, which for a percentile in 0..100 is the bin `contextBin(101)` gives |
| GCDescriptor.BinOfAt101 | include/GCFragModel.hpp:15-26 | at 101 bins the parameterised bin equals the raw percentile, so the fixed-resolution `fragBin()`/`contextBin()` agree with `fragBin(101)`/`contextBin(101)` |
| GCFragModel.Init | include/GCFragModel.hpp:31-46 | construction gives a `condBins x numGCBins` table, not normalised, in the requested space, with every cell LOG_0 in LOG space and 0 in LINEAR space |
| GCFragModel.Reset | include/GCFragModel.hpp:53-62 | `reset` keeps the dimensions, clears `normalized`, adopts the given space and empties every cell |
| GCFragModel.ResetIsFresh | include/GCFragModel.hpp:53-62 | a reset model equals a freshly constructed one of the same dimensions and space, whatever it held before |
| GCFragModel.CtxIndex | include/GCFragModel.hpp:85 | the row `inc`/`get` address is a valid row: the binned context percentile, or 0 when there is a single row |
| GCFragModel.Inc | include/GCFragModel.hpp:81-93 | `inc` changes exactly the cell at (context row, fragment percentile); there it adds the weight in LINEAR space and applies `logAdd` in LOG space; every other cell, the flags and the dimensions stay |
| GCFragModel.Get | include/GCFragModel.hpp:95-99 | `get` returns a cell of the column named by the fragment percentile without changing the model; a single-row model and a context percentile of 0 read row 0, and a context percentile of 100 reads the last row |
| GCFragModel.DistributionSpace | include/GCFragModel.hpp:101 | `distributionSpace()` reports the current space, which is LINEAR for any normalised model in a reachable state |
| GCFragModel.DistributionSpaceLifecycle | include/GCFragModel.hpp:31-62 | the reported space is the requested one after construction and `reset`, unchanged by `inc`, and LINEAR after the first `normalize` |
| GCFragModel.GetAfterInc | include/GCFragModel.hpp:81-99 | `get` reads the cell `inc` writes: after `inc(d, w)` in LINEAR space, `get(d)` is the previous value plus `w`; in LOG space it is `logAdd(previous, w)` |
| GCFragModel.GetUnaffectedByInc | include/GCFragModel.hpp:81-99 | `get` through any descriptor that addresses a different cell is not changed by `inc` |
| GCFragModel.IncRowMass | include/GCFragModel.hpp:88-92 | in LINEAR space `inc` raises the normalising mass of the addressed row by exactly the weight and leaves every other row's mass unchanged |
| GCFragModel.CombineCounts | include/GCFragModel.hpp:103-121 | merging fails with `SpaceMismatch` exactly when the spaces differ; otherwise each cell is the sum (LINEAR) or `logAdd` (LOG) of the two cells, and dimensions, space and `normalized` are those of the receiver |
| GCFragModel.CombineCommutes | include/GCFragModel.hpp:108-120 | merged counts do not depend on operand order (LINEAR; LOG when `logAdd` is commutative) |
| GCFragModel.CombineAssociates | include/GCFragModel.hpp:108-120 | merged counts do not depend on grouping, so partial models can be tree-reduced (LINEAR; LOG when `logAdd` is associative) |
| GCFragModel.NormalizeLinearRow | include/GCFragModel.hpp:142-153 | a LINEAR row with positive mass becomes cells proportional to prior plus cell that sum to exactly 1; a row with mass `<= 0` is left unchanged |
| GCFragModel.RowMassLoop | include/GCFragModel.hpp:143-146 | `normalize`'s row-mass loop in its LINEAR branch computes the sum over the row of prior plus cell |
| GCFragModel.RescaleLoop | include/GCFragModel.hpp:148-151 | `normalize`'s in-place rescaling loop in its LINEAR branch turns every cell into prior plus cell, times the normalising factor |
| GCFragModel.NormalizeLinearRowLoop | include/GCFragModel.hpp:142-153 | the two loops of `normalize`'s LINEAR branch, run only when the mass is positive for the second, compute exactly the row normalisation stated by `NormalizeLinearRow` |
| GCFragModel.LogRowMass | include/GCFragModel.hpp:131-134 | the LOG row mass starts at LOG_0, so a row without columns has mass LOG_0; otherwise the prior is the last term `logAdd`ed in |
| GCFragModel.LogRowMassLoop | include/GCFragModel.hpp:131-134 | `normalize`'s row-mass loop in its LOG branch computes exactly the left-to-right fold `LogRowMass` |
| GCFragModel.NormalizeLogRow | include/GCFragModel.hpp:128-140 | a LOG row whose mass is the LOG_0 sentinel is left unchanged, and the row keeps its length |
| GCFragModel.Normalize | include/GCFragModel.hpp:126-158 | an already normalised model is returned unchanged; otherwise the result is normalised and LINEAR with the same dimensions; in LINEAR space every positive-mass row sums to 1 with each cell its share of prior plus count, and non-positive-mass rows stay; in LOG space rows whose mass is LOG_0 stay |
| GCFragModel.NormalizeIdempotent | include/GCFragModel.hpp:126-127 | normalising a second time, with any prior, changes nothing |
| GCFragModel.NormalizedCellsPositive | include/GCFragModel.hpp:142-153 | with a positive prior, non-negative LINEAR counts and at least one column, every normalised cell is strictly positive |
| GCFragModel.Clamp | include/GCFragModel.hpp:67-74 | the clamped ratio is at least `1/maxRatio`, at most `maxRatio` when `maxRatio >= 1`, equal to the quotient when that lies in range; a quotient above `maxRatio` becomes `maxRatio` when `maxRatio >= 1`, one below `1/maxRatio` becomes `1/maxRatio`, and for `maxRatio < 1` (an empty range, where the lower clamp runs last) every result is `1/maxRatio` |
| GCFragModel.RatioCells | include/GCFragModel.hpp:70-77 | the ratio table has the operands' shape, every cell is at least `1/maxRatio` and at most `maxRatio` when `maxRatio >= 1`, an in-range cell times the denominator gives back the numerator, and an out-of-range cell is the bound it crossed: `maxRatio` above (for `maxRatio >= 1`), `1/maxRatio` below; for `maxRatio < 1` every cell is `1/maxRatio` |
| GCFragModel.Ratio | include/GCFragModel.hpp:64-79 | `ratio` leaves both operands normalised with the default prior; it returns a new model of the same shape in the post-normalisation space (LINEAR), not normalised, whose every cell lies in `[1/maxRatio, maxRatio]` for `maxRatio >= 1` and is the exact quotient when that lies in range; a quotient above `maxRatio` (for `maxRatio >= 1`) becomes `maxRatio`, one below `1/maxRatio` becomes `1/maxRatio`, and for `maxRatio < 1` every cell is `1/maxRatio` |
| GCFragModel.RatioDefinedForCounts | include/GCFragModel.hpp:64-72 | a LINEAR denominator of non-negative counts with at least one column, not yet normalised, has no zero cell after `ratio`'s own normalisation, so it meets `Ratio`'s no-zero-denominator precondition |
| Scenarios.ThreeToOneScenario | include/GCFragModel.hpp:81-158 | one row, LINEAR, prior 0: three unit observations at percentile 50 and one at 90 normalise to 0.75 and 0.25, all other cells 0 |
| Scenarios.RatioScenario | include/GCFragModel.hpp:64-79 | two normalised rows that differ only at bin 10 (0.8 against 0.1) give ratio exactly 8 there and 1 elsewhere with `maxRatio = 10` |
| Scenarios.MismatchedSpacesScenario | include/GCFragModel.hpp:103-107 | combining a LOG model with a LINEAR one is an error, not a value |

## Left out

- Log-space numerics: `LOG_0`, `logAdd`, `isLog0`, `std::log` and `std::exp` come from `SalmonMath.hpp`, which is not part of this model. They are uninterpreted parameters. The model claims which cells a LOG operation touches and the flag and space transitions, and nothing about LOG values.
- GCFragModel.NormalizeLogRow: states only that LOG_0-mass rows are kept and that the length is preserved; no claim that a LOG row sums to 1, since that depends on the real meaning of `logAdd`, `log` and `exp`.
- GCFragModel.Normalize: its LOG-space clauses are weaker than its LINEAR ones for the same reason. The equivalence of LOG and LINEAR accumulation after normalisation is not modelled.
- GCDescriptor.BinOf: computes `min(n-1, floor(frac*n/100))` over exact rationals. The C++ divides by the double `100.0/n`, which can round below an exact multiple: for `n = 22`, `frac = 50` the double quotient is 10.999999999999998, so the C++ gives bin 10 where the exact value is 11 (likewise `n`, `frac` = 44, 25; 44, 50; 68, 75; 76, 75; 88, 25; 88, 50). Only the `[0, n-1]` bound, the top-bin clamp, the agreement at 101 bins and `bin * 100 <= frac * n` (the bin never starts past the percentile) are claimed; each of these also holds for the double computation.
- Percentiles outside 0..100 are excluded by precondition. For a negative percentile the C++ cast truncates toward zero; for one above 100, `fragBin(n)`/`contextBin(n)` clamp to the top bin `n-1` (lines 21 and 25). The model does not promise that top-bin absorption of percentiles above 100.
- Integer widths are not modelled: percentiles and bin counts are unbounded integers. In particular the narrowing of the `size_t` row count to the `int32_t` parameter of `contextBin` in `inc` and `get` (lines 85 and 96) is not modelled.
- Unchecked indexing: `fragBin()` returns the raw percentile. `inc` and `get` therefore require that the percentile is a valid column (`GCFragModel.Addressable`) and that there is at least one row; out-of-bounds access is not modelled.
- GCFragModel.CombineCounts: equal shape is a precondition. The C++ does not check shapes: its loops run over the receiver's dimensions and read `other.counts_(r,c)` (lines 111 and 117), so a smaller `other` is read out of bounds (undefined behaviour) and a larger one contributes only its top-left block. Neither case is modelled. The `std::cerr` message and `std::exit(1)` become the `Err(SpaceMismatch)` result.
- GCFragModel.Ratio: equal shape, `maxRatio > 0` and non-zero normalised denominators are preconditions. Like `combineCounts`, the C++ loops over the receiver's dimensions and reads `other.counts_(r,c)` without a shape check (line 72), so a smaller `other` is read out of bounds and a larger one contributes only its top-left block; neither case is modelled. Exact reals have no infinities or NaN, so the C++ behaviour on a zero divisor is not modelled. `GCFragModel.RatioDefinedForCounts` shows when the precondition holds.
- Default arguments: constructor defaults (3 rows, 101 columns, LOG) and the `reset` default (LOG) are not modelled; callers pass them explicitly. The `normalize` default prior 0.1 is `GCFragModel.DefaultPrior`, which `ratio` uses.
- Defaulted copy and move constructors and assignments: the model is a value, so copies are implicit. The Eigen matrix becomes `seq<seq<real>>`.
- Floating-point rounding in general: all arithmetic is exact, so "sums to 1" is exact here rather than within a tolerance.
