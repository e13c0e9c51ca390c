/** The GC-bias model: a `condBins x numGCBins` table of weights, one row per
    context GC bin and one column per fragment GC percentile, kept either in
    LOG space or in LINEAR space, plus a flag recording whether the rows have
    been normalised into probability distributions.

    The model is a value: every operation returns the updated model instead
    of changing it in place. */
module GCFragModel {
  import opened Tables
  import opened GCDescriptor
  import opened LogMath

  /** How the stored values are read: as natural logs or as plain weights. */
  datatype Space = Log | Linear

  datatype Model = Model(
    condBins: nat,
    numGCBins: nat,
    space: Space,
    normalized: bool,
    counts: seq<seq<real>>)

  /** Combining two models kept in different spaces is a fatal error. */
  datatype CombineError = SpaceMismatch

  datatype Result<T> = Ok(value: T) | Err(error: CombineError)

  /** What `ratio` leaves behind: it normalises both operands in place before
      reading them, so the caller sees both of them changed, and returns a
      new model holding the ratios. */
  datatype RatioOutcome = RatioOutcome(self: Model, other: Model, ratio: Model)

  /** The smoothing prior `normalize` uses when none is given. */
  const DefaultPrior: real := 0.1

  /** The table has the dimensions the model records. */
  predicate Valid(m: Model)
  {
    HasShape(m.counts, m.condBins, m.numGCBins)
  }

  /** A well-formed model in a reachable state: a normalised model is LINEAR. */
  predicate Consistent(m: Model)
  {
    Valid(m) && (m.normalized ==> m.space == Linear)
  }

  predicate SameShape(a: Model, b: Model)
  {
    Valid(a) && Valid(b) && a.condBins == b.condBins && a.numGCBins == b.numGCBins
  }

  /** The value of an empty cell: probability zero in the given space. */
  function EmptyCell(space: Space, ops: LogArith): real
  {
    if space == Log then ops.log0 else 0.0
  }

  /** Adds weight `w` to a cell holding `v`, in the given space. */
  function Accumulate(space: Space, v: real, w: real, ops: LogArith): real
  {
    if space == Log then ops.logAdd(v, w) else v + w
  }

  // ---------------------------------------------------------------------
  // Construction and reset
  // ---------------------------------------------------------------------

  /** A fresh model: every cell empty, not normalised. */
  function Init(condBins: nat, numGCBins: nat, space: Space, ops: LogArith): (m: Model)
    ensures Consistent(m)
    ensures m.condBins == condBins && m.numGCBins == numGCBins
    ensures m.space == space && !m.normalized
    ensures forall r, c :: 0 <= r < condBins && 0 <= c < numGCBins ==>
              m.counts[r][c] == EmptyCell(space, ops)
  {
    Model(condBins, numGCBins, space, false, Filled(condBins, numGCBins, EmptyCell(space, ops)))
  }

  /** Back to the fresh state, possibly in another space; the dimensions stay. */
  function Reset(m: Model, space: Space, ops: LogArith): (r: Model)
    ensures Consistent(r)
    ensures r.condBins == m.condBins && r.numGCBins == m.numGCBins
    ensures r.space == space && !r.normalized
    ensures forall i, j :: 0 <= i < m.condBins && 0 <= j < m.numGCBins ==>
              r.counts[i][j] == EmptyCell(space, ops)
  {
    m.(space := space, normalized := false,
       counts := Filled(m.condBins, m.numGCBins, EmptyCell(space, ops)))
  }

  /** Resetting a model is indistinguishable from constructing a new one of
      the same dimensions, whatever the model held before. */
  lemma ResetIsFresh(m: Model, space: Space, ops: LogArith)
    ensures Reset(m, space, ops) == Init(m.condBins, m.numGCBins, space, ops)
  {
  }

  // ---------------------------------------------------------------------
  // Addressing, inc and get
  // ---------------------------------------------------------------------

  /** The descriptor addresses a cell of the table: the fragment percentile
      is used directly as a column, and the context percentile is binned
      over the rows when there is more than one row. */
  predicate Addressable(m: Model, d: GCDesc)
  {
    && Valid(m)
    && m.condBins >= 1
    && 0 <= FragBin(d) < m.numGCBins
    && (m.condBins > 1 ==> IsPercentile(d.contextFrac))
  }

  /** The row a descriptor addresses; a single-row model always uses row 0. */
  function CtxIndex(m: Model, d: GCDesc): (i: nat)
    requires Addressable(m, d)
    ensures i < m.condBins
  {
    if m.condBins > 1 then ContextBinN(d, m.condBins) else 0
  }

  /** Records one observation of weight `w` in the addressed cell. */
  function Inc(m: Model, d: GCDesc, w: real, ops: LogArith): (r: Model)
    requires Addressable(m, d)
    ensures Valid(r) && r.condBins == m.condBins && r.numGCBins == m.numGCBins
    ensures r.space == m.space && r.normalized == m.normalized
    ensures forall i, j :: (0 <= i < m.condBins && 0 <= j < m.numGCBins
              && (i != CtxIndex(m, d) || j != FragBin(d))) ==> r.counts[i][j] == m.counts[i][j]
    ensures m.space == Linear ==>
              r.counts[CtxIndex(m, d)][FragBin(d)] == m.counts[CtxIndex(m, d)][FragBin(d)] + w
    ensures m.space == Log ==>
              r.counts[CtxIndex(m, d)][FragBin(d)] == ops.logAdd(m.counts[CtxIndex(m, d)][FragBin(d)], w)
  {
    var i := CtxIndex(m, d);
    var j := FragBin(d);
    var row := m.counts[i][j := Accumulate(m.space, m.counts[i][j], w, ops)];
    m.(counts := m.counts[i := row])
  }

  /** The value of the addressed cell, read without changing the model: the
      fragment percentile picks the column; a context percentile of 0 reads
      the first row and one of 100 the last, and a single-row model always
      reads row 0. */
  function Get(m: Model, d: GCDesc): (v: real)
    requires Addressable(m, d)
    ensures m.condBins == 1 ==> v == m.counts[0][d.fragFrac]
    ensures d.contextFrac == 0 ==> v == m.counts[0][d.fragFrac]
    ensures d.contextFrac == 100 ==> v == m.counts[m.condBins - 1][d.fragFrac]
    ensures exists i :: 0 <= i < m.condBins && v == m.counts[i][d.fragFrac]
  {
    m.counts[CtxIndex(m, d)][FragBin(d)]
  }

  /** The space the model currently lives in; a normalised model in a
      reachable state always reports LINEAR. */
  function DistributionSpace(m: Model): (s: Space)
    ensures Consistent(m) && m.normalized ==> s == Linear
  {
    m.space
  }

  /** The reported space follows the lifecycle: construction and `reset`
      adopt the requested space, `inc` keeps it, and `normalize` switches a
      model that was not yet normalised to LINEAR. */
  lemma DistributionSpaceLifecycle(m: Model, d: GCDesc, w: real, prior: real, space: Space, ops: LogArith)
    requires Valid(m)
    ensures DistributionSpace(Init(m.condBins, m.numGCBins, space, ops)) == space
    ensures DistributionSpace(Reset(m, space, ops)) == space
    ensures Addressable(m, d) ==> DistributionSpace(Inc(m, d, w, ops)) == DistributionSpace(m)
    ensures !m.normalized ==> DistributionSpace(Normalize(m, prior, ops)) == Linear
    ensures m.normalized ==> DistributionSpace(Normalize(m, prior, ops)) == DistributionSpace(m)
  {
  }

  /** `get` reads the cell `inc` writes: after `inc(d, w)` it returns the
      previous value with `w` added in the model's space. */
  lemma GetAfterInc(m: Model, d: GCDesc, w: real, ops: LogArith)
    requires Addressable(m, d)
    ensures Addressable(Inc(m, d, w, ops), d)
    ensures m.space == Linear ==> Get(Inc(m, d, w, ops), d) == Get(m, d) + w
    ensures m.space == Log ==> Get(Inc(m, d, w, ops), d) == ops.logAdd(Get(m, d), w)
  {
  }

  /** `inc` leaves alone every cell another descriptor addresses, unless both
      descriptors address the same cell. */
  lemma GetUnaffectedByInc(m: Model, d: GCDesc, e: GCDesc, w: real, ops: LogArith)
    requires Addressable(m, d) && Addressable(m, e)
    requires CtxIndex(m, e) != CtxIndex(m, d) || FragBin(e) != FragBin(d)
    ensures Addressable(Inc(m, d, w, ops), e)
    ensures Get(Inc(m, d, w, ops), e) == Get(m, e)
  {
  }

  /** A row's cells with the smoothing prior added to each. */
  function AddPrior(row: seq<real>, prior: real): (s: seq<real>)
    ensures |s| == |row|
    ensures forall c :: 0 <= c < |row| ==> s[c] == prior + row[c]
  {
    seq(|row|, c requires 0 <= c < |row| => prior + row[c])
  }

  /** The LINEAR normalising constant of a row: the sum of prior plus cell. */
  function RowMass(row: seq<real>, prior: real): real
  {
    Sum(AddPrior(row, prior))
  }

  /** In LINEAR space, `inc` adds its weight to the mass of the addressed row
      and leaves the mass of every other row unchanged, whatever the prior. */
  lemma {:induction false} IncRowMass(m: Model, d: GCDesc, w: real, prior: real, ops: LogArith)
    requires Addressable(m, d) && m.space == Linear
    ensures RowMass(Inc(m, d, w, ops).counts[CtxIndex(m, d)], prior)
            == RowMass(m.counts[CtxIndex(m, d)], prior) + w
    ensures forall i :: 0 <= i < m.condBins && i != CtxIndex(m, d) ==>
              RowMass(Inc(m, d, w, ops).counts[i], prior) == RowMass(m.counts[i], prior)
  {
    var i := CtxIndex(m, d);
    var j := FragBin(d);
    var row := m.counts[i];
    var row' := Inc(m, d, w, ops).counts[i];
    assert row' == row[j := row[j] + w];
    assert AddPrior(row', prior) == AddPrior(row, prior)[j := prior + (row[j] + w)];
    SumUpdate(AddPrior(row, prior), j, prior + (row[j] + w));
  }

  // ---------------------------------------------------------------------
  // combineCounts
  // ---------------------------------------------------------------------

  /** Merges `o` into `m` cell by cell. Models in different spaces cannot be
      combined; otherwise each cell accumulates the other's cell, and
      everything else about `m` is kept. */
  function CombineCounts(m: Model, o: Model, ops: LogArith): (r: Result<Model>)
    requires SameShape(m, o)
    ensures r.Err? <==> m.space != o.space
    ensures r.Ok? ==> Valid(r.value)
    ensures r.Ok? ==> r.value.condBins == m.condBins && r.value.numGCBins == m.numGCBins
    ensures r.Ok? ==> r.value.space == m.space && r.value.normalized == m.normalized
    ensures r.Ok? && m.space == Linear ==>
              forall i, j :: 0 <= i < m.condBins && 0 <= j < m.numGCBins ==>
                r.value.counts[i][j] == m.counts[i][j] + o.counts[i][j]
    ensures r.Ok? && m.space == Log ==>
              forall i, j :: 0 <= i < m.condBins && 0 <= j < m.numGCBins ==>
                r.value.counts[i][j] == ops.logAdd(m.counts[i][j], o.counts[i][j])
  {
    if m.space != o.space then
      Err(SpaceMismatch)
    else
      var merged := seq(m.condBins, i requires 0 <= i < m.condBins =>
                      seq(m.numGCBins, j requires 0 <= j < m.numGCBins =>
                        Accumulate(m.space, m.counts[i][j], o.counts[i][j], ops)));
      Ok(m.(counts := merged))
  }

  /** `logAdd` treats its operands symmetrically. */
  ghost predicate LogAddCommutes(ops: LogArith)
  {
    forall x, y :: ops.logAdd(x, y) == ops.logAdd(y, x)
  }

  /** `logAdd` is associative. */
  ghost predicate LogAddAssociates(ops: LogArith)
  {
    forall x, y, z :: ops.logAdd(ops.logAdd(x, y), z) == ops.logAdd(x, ops.logAdd(y, z))
  }

  /** Partial models can be merged in either order: the merged counts agree.
      In LOG space this holds as far as `logAdd` is commutative. */
  lemma CombineCommutes(a: Model, b: Model, ops: LogArith)
    requires SameShape(a, b) && a.space == b.space
    requires a.space == Log ==> LogAddCommutes(ops)
    ensures CombineCounts(a, b, ops).Ok? && CombineCounts(b, a, ops).Ok?
    ensures CombineCounts(a, b, ops).value.counts == CombineCounts(b, a, ops).value.counts
  {
    var ab := CombineCounts(a, b, ops).value.counts;
    var ba := CombineCounts(b, a, ops).value.counts;
    forall i | 0 <= i < a.condBins
      ensures ab[i] == ba[i]
    {
      forall j | 0 <= j < a.numGCBins
        ensures ab[i][j] == ba[i][j]
      {
        if a.space == Log {
          assert ops.logAdd(a.counts[i][j], b.counts[i][j]) == ops.logAdd(b.counts[i][j], a.counts[i][j]);
        }
      }
    }
  }

  /** Partial models can be merged in any grouping: the merged counts agree.
      In LOG space this holds as far as `logAdd` is associative. */
  lemma CombineAssociates(a: Model, b: Model, c: Model, ops: LogArith)
    requires SameShape(a, b) && SameShape(b, c)
    requires a.space == b.space && b.space == c.space
    requires a.space == Log ==> LogAddAssociates(ops)
    ensures CombineCounts(a, b, ops).Ok? && CombineCounts(b, c, ops).Ok?
    ensures CombineCounts(CombineCounts(a, b, ops).value, c, ops).Ok?
    ensures CombineCounts(a, CombineCounts(b, c, ops).value, ops).Ok?
    ensures CombineCounts(CombineCounts(a, b, ops).value, c, ops).value.counts
            == CombineCounts(a, CombineCounts(b, c, ops).value, ops).value.counts
  {
    var ab := CombineCounts(a, b, ops).value;
    var bc := CombineCounts(b, c, ops).value;
    var left := CombineCounts(ab, c, ops).value.counts;
    var right := CombineCounts(a, bc, ops).value.counts;
    forall i | 0 <= i < a.condBins
      ensures left[i] == right[i]
    {
      forall j | 0 <= j < a.numGCBins
        ensures left[i][j] == right[i][j]
      {
        if a.space == Log {
          assert ops.logAdd(ops.logAdd(a.counts[i][j], b.counts[i][j]), c.counts[i][j])
              == ops.logAdd(a.counts[i][j], ops.logAdd(b.counts[i][j], c.counts[i][j]));
        }
      }
    }
  }

  // ---------------------------------------------------------------------
  // normalize
  // ---------------------------------------------------------------------

  /** A LINEAR row normalised with additive smoothing: when the row has
      positive mass, each cell becomes its share of that mass (prior
      included) and the row sums to exactly one; otherwise it is kept. */
  function NormalizeLinearRow(row: seq<real>, prior: real): (out: seq<real>)
    ensures |out| == |row|
    ensures RowMass(row, prior) > 0.0 ==> Sum(out) == 1.0
    ensures RowMass(row, prior) > 0.0 ==>
              forall c :: 0 <= c < |row| ==> out[c] * RowMass(row, prior) == prior + row[c]
    ensures RowMass(row, prior) <= 0.0 ==> out == row
  {
    var mass := RowMass(row, prior);
    if mass > 0.0 then
      var norm := 1.0 / mass;
      SumScale(AddPrior(row, prior), norm);
      ShareOfMass(AddPrior(row, prior), mass);
      Scale(AddPrior(row, prior), norm)
    else
      row
  }

  lemma ShareOfMass(s: seq<real>, mass: real)
    requires mass > 0.0
    ensures mass * (1.0 / mass) == 1.0
    ensures forall c :: 0 <= c < |s| ==> s[c] * (1.0 / mass) * mass == s[c]
  {
  }

  /** The LOG normalising constant of a row, accumulated left to right as
      `normalize`'s row-mass loop in its LOG branch does:
      `logAdd(prior, logAdd(mass, cell))` per cell, starting from LOG_0. A row
      without columns has mass LOG_0; otherwise the prior is the last thing
      folded in. */
  function LogRowMass(row: seq<real>, logPrior: real, ops: LogArith): (r: real)
    ensures |row| == 0 ==> r == ops.log0
    ensures |row| > 0 ==> exists y :: r == ops.logAdd(logPrior, y)
    decreases |row|
  {
    if |row| == 0 then ops.log0
    else
      var n := |row| - 1;
      var inner := ops.logAdd(LogRowMass(row[..n], logPrior, ops), row[n]);
      ops.logAdd(logPrior, inner)
  }

  /** A LOG row normalised into LINEAR space: kept when its mass is the
      LOG_0 sentinel, otherwise every cell is replaced by its smoothed share
      of the mass, a function of that cell and the row mass only. */
  function NormalizeLogRow(row: seq<real>, logPrior: real, ops: LogArith): (out: seq<real>)
    ensures |out| == |row|
    ensures ops.isLog0(LogRowMass(row, logPrior, ops)) ==> out == row
  {
    var mass := LogRowMass(row, logPrior, ops);
    if ops.isLog0(mass) then row
    else seq(|row|, c requires 0 <= c < |row| => ops.exp(ops.logAdd(logPrior, row[c]) - mass))
  }

  /** Turns every row into a probability distribution with additive prior
      `prior`, once: a model already normalised is returned unchanged.
      Afterwards the model is normalised and LINEAR. */
  function Normalize(m: Model, prior: real, ops: LogArith): (r: Model)
    requires Valid(m)
    ensures Valid(r) && r.condBins == m.condBins && r.numGCBins == m.numGCBins
    ensures r.normalized
    ensures m.normalized ==> r == m
    ensures Consistent(m) ==> Consistent(r) && r.space == Linear
    ensures !m.normalized && m.space == Linear ==>
              forall i :: 0 <= i < m.condBins && RowMass(m.counts[i], prior) > 0.0 ==>
                Sum(r.counts[i]) == 1.0
    ensures !m.normalized && m.space == Linear ==>
              forall i, j :: (0 <= i < m.condBins && 0 <= j < m.numGCBins
                && RowMass(m.counts[i], prior) > 0.0) ==>
                r.counts[i][j] * RowMass(m.counts[i], prior) == prior + m.counts[i][j]
    ensures !m.normalized && m.space == Linear ==>
              forall i :: 0 <= i < m.condBins && RowMass(m.counts[i], prior) <= 0.0 ==>
                r.counts[i] == m.counts[i]
    ensures !m.normalized && m.space == Log ==>
              forall i :: (0 <= i < m.condBins
                && ops.isLog0(LogRowMass(m.counts[i], ops.ln(prior), ops))) ==>
                r.counts[i] == m.counts[i]
  {
    if m.normalized then m
    else
      var rows := if m.space == Log then
          seq(m.condBins, i requires 0 <= i < m.condBins =>
            NormalizeLogRow(m.counts[i], ops.ln(prior), ops))
        else
          seq(m.condBins, i requires 0 <= i < m.condBins =>
            NormalizeLinearRow(m.counts[i], prior));
      m.(counts := rows, normalized := true, space := Linear)
  }

  /** Normalisation happens once: normalising again, with any prior, changes
      nothing. */
  lemma NormalizeIdempotent(m: Model, prior: real, prior': real, ops: LogArith)
    requires Valid(m)
    ensures Normalize(Normalize(m, prior, ops), prior', ops) == Normalize(m, prior, ops)
  {
  }

  /** With a positive prior, a non-empty row of non-negative LINEAR counts
      normalises to strictly positive cells, so such a model is a valid
      denominator for `ratio`. */
  lemma {:induction false} NormalizedCellsPositive(m: Model, prior: real, ops: LogArith)
    requires Valid(m) && !m.normalized && m.space == Linear
    requires prior > 0.0 && m.numGCBins >= 1
    requires forall i, j :: 0 <= i < m.condBins && 0 <= j < m.numGCBins ==> m.counts[i][j] >= 0.0
    ensures forall i, j :: 0 <= i < m.condBins && 0 <= j < m.numGCBins ==>
              Normalize(m, prior, ops).counts[i][j] > 0.0
  {
    var r := Normalize(m, prior, ops);
    forall i | 0 <= i < m.condBins
      ensures forall j :: 0 <= j < m.numGCBins ==> r.counts[i][j] > 0.0
    {
      assert r.counts[i] == NormalizeLinearRow(m.counts[i], prior);
      RowCellsPositive(m.counts[i], prior);
    }
  }

  lemma RowCellsPositive(row: seq<real>, prior: real)
    requires prior > 0.0 && |row| >= 1
    requires forall c :: 0 <= c < |row| ==> row[c] >= 0.0
    ensures forall c :: 0 <= c < |row| ==> NormalizeLinearRow(row, prior)[c] > 0.0
  {
    var s := AddPrior(row, prior);
    SumPositive(s);
    var mass := RowMass(row, prior);
    var out := NormalizeLinearRow(row, prior);
    forall c | 0 <= c < |row|
      ensures out[c] > 0.0
    {
      PositiveQuotient(out[c], mass, prior + row[c]);
    }
  }

  lemma PositiveQuotient(x: real, mass: real, y: real)
    requires mass > 0.0 && y > 0.0 && x * mass == y
    ensures x > 0.0
  {
  }

  /** `normalize`'s row-mass loop in its LOG branch: the mass of a row,
      folded cell by cell from LOG_0. */
  method LogRowMassLoop(row: seq<real>, logPrior: real, ops: LogArith) returns (rowMass: real)
    ensures rowMass == LogRowMass(row, logPrior, ops)
  {
    rowMass := ops.log0;
    var c := 0;
    while c < |row|
      invariant 0 <= c <= |row|
      invariant rowMass == LogRowMass(row[..c], logPrior, ops)
    {
      assert row[..c + 1][..c] == row[..c];
      rowMass := ops.logAdd(logPrior, ops.logAdd(rowMass, row[c]));
      c := c + 1;
    }
    assert row[..|row|] == row;
  }

  /** `normalize`'s row-mass loop in its LINEAR branch: the sum over the row of
      prior plus cell, accumulated cell by cell. */
  method RowMassLoop(row: seq<real>, prior: real) returns (rowMass: real)
    ensures rowMass == RowMass(row, prior)
  {
    var shifted := AddPrior(row, prior);
    rowMass := 0.0;
    var c := 0;
    while c < |row|
      invariant 0 <= c <= |row|
      invariant rowMass == Sum(shifted[..c])
    {
      assert shifted[..c + 1][..c] == shifted[..c];
      rowMass := rowMass + (prior + row[c]);
      c := c + 1;
    }
    assert shifted[..|row|] == shifted;
  }

  /** `normalize`'s rescaling loop in its LINEAR branch: every cell replaced,
      in place, by prior plus cell, times `norm`. */
  method RescaleLoop(row: seq<real>, prior: real, norm: real) returns (out: seq<real>)
    ensures out == Scale(AddPrior(row, prior), norm)
  {
    out := row;
    var c := 0;
    while c < |row|
      invariant 0 <= c <= |row| && |out| == |row|
      invariant forall k :: 0 <= k < c ==> out[k] == (prior + row[k]) * norm
      invariant forall k :: c <= k < |row| ==> out[k] == row[k]
    {
      out := out[c := (prior + out[c]) * norm];
      c := c + 1;
    }
    assert forall k :: 0 <= k < |row| ==> out[k] == Scale(AddPrior(row, prior), norm)[k];
  }

  /** The LINEAR branch of `normalize` for one row, written as its two loops,
      computes exactly the row normalisation above. */
  method NormalizeLinearRowLoop(row: seq<real>, prior: real) returns (out: seq<real>)
    ensures out == NormalizeLinearRow(row, prior)
  {
    var rowMass := RowMassLoop(row, prior);
    out := row;
    if rowMass > 0.0 {
      var norm := 1.0 / rowMass;
      out := RescaleLoop(row, prior, norm);
    }
    LoopComputesRow(row, prior, rowMass, out);
  }

  lemma LoopComputesRow(row: seq<real>, prior: real, mass: real, out: seq<real>)
    requires mass == RowMass(row, prior)
    requires mass > 0.0 ==> out == Scale(AddPrior(row, prior), 1.0 / mass)
    requires mass <= 0.0 ==> out == row
    ensures out == NormalizeLinearRow(row, prior)
  {
  }

  // ---------------------------------------------------------------------
  // ratio
  // ---------------------------------------------------------------------

  /** Clamps a ratio first to at most `maxRatio`, then to at least
      `1/maxRatio`. The second step wins, so for `maxRatio < 1`, where the
      range is empty, every ratio becomes `1/maxRatio`. */
  function Clamp(q: real, maxRatio: real): (v: real)
    requires maxRatio > 0.0
    ensures v >= 1.0 / maxRatio
    ensures maxRatio >= 1.0 ==> v <= maxRatio
    ensures 1.0 / maxRatio <= q <= maxRatio ==> v == q
    ensures maxRatio >= 1.0 && q > maxRatio ==> v == maxRatio
    ensures q < 1.0 / maxRatio ==> v == 1.0 / maxRatio
    ensures maxRatio < 1.0 ==> v == 1.0 / maxRatio
  {
    var rat := if q > maxRatio then maxRatio else q;
    if rat < 1.0 / maxRatio then 1.0 / maxRatio else rat
  }

  /** No cell of the table is zero. */
  predicate NoZeroCell(m: Model)
  {
    Valid(m) && forall i, j :: 0 <= i < m.condBins && 0 <= j < m.numGCBins ==> m.counts[i][j] != 0.0
  }

  /** Normalises both operands (with the default prior) and divides them cell
      by cell into a new LINEAR, not yet normalised model of the same shape,
      each ratio clamped by `Clamp`. */
  function Ratio(m: Model, o: Model, maxRatio: real, ops: LogArith): (res: RatioOutcome)
    requires SameShape(m, o) && maxRatio > 0.0
    requires NoZeroCell(Normalize(o, DefaultPrior, ops))
    ensures res.self == Normalize(m, DefaultPrior, ops)
    ensures res.other == Normalize(o, DefaultPrior, ops)
    ensures Valid(res.ratio)
    ensures res.ratio.condBins == m.condBins && res.ratio.numGCBins == m.numGCBins
    ensures res.ratio.space == res.self.space && !res.ratio.normalized
    ensures Consistent(m) ==> res.ratio.space == Linear
    ensures forall i, j :: 0 <= i < m.condBins && 0 <= j < m.numGCBins ==>
              res.ratio.counts[i][j] >= 1.0 / maxRatio
    ensures maxRatio >= 1.0 ==>
              forall i, j :: 0 <= i < m.condBins && 0 <= j < m.numGCBins ==>
                res.ratio.counts[i][j] <= maxRatio
    ensures ExactWhereInRange(res.ratio.counts, res.self, res.other, maxRatio)
    ensures SaturatesOutOfRange(res.ratio.counts, res.self, res.other, maxRatio)
  {
    var a := Normalize(m, DefaultPrior, ops);
    var b := Normalize(o, DefaultPrior, ops);
    RatioOutcome(a, b, Model(m.condBins, m.numGCBins, a.space, false, RatioCells(a, b, maxRatio)))
  }

  /** Wherever the quotient of `a` by `b` lies within `[1/maxRatio, maxRatio]`,
      the cell of `t` is that exact quotient: times the denominator it gives
      back the numerator. */
  predicate ExactWhereInRange(t: seq<seq<real>>, a: Model, b: Model, maxRatio: real)
    requires SameShape(a, b) && HasShape(t, a.condBins, a.numGCBins)
    requires maxRatio > 0.0 && NoZeroCell(b)
  {
    forall i, j :: (0 <= i < a.condBins && 0 <= j < a.numGCBins
      && 1.0 / maxRatio <= a.counts[i][j] / b.counts[i][j] <= maxRatio) ==>
      t[i][j] * b.counts[i][j] == a.counts[i][j]
  }

  /** Wherever the quotient of `a` by `b` falls outside the range, the cell of
      `t` is the bound it crossed: `maxRatio` above (for `maxRatio >= 1`),
      `1/maxRatio` below. For `maxRatio < 1` every cell is `1/maxRatio`. */
  predicate SaturatesOutOfRange(t: seq<seq<real>>, a: Model, b: Model, maxRatio: real)
    requires SameShape(a, b) && HasShape(t, a.condBins, a.numGCBins)
    requires maxRatio > 0.0 && NoZeroCell(b)
  {
    forall i, j :: 0 <= i < a.condBins && 0 <= j < a.numGCBins ==>
      && (maxRatio >= 1.0 && a.counts[i][j] / b.counts[i][j] > maxRatio ==> t[i][j] == maxRatio)
      && (a.counts[i][j] / b.counts[i][j] < 1.0 / maxRatio ==> t[i][j] == 1.0 / maxRatio)
      && (maxRatio < 1.0 ==> t[i][j] == 1.0 / maxRatio)
  }

  /** The clamped cell-wise quotient of two same-shape tables. */
  function RatioCells(a: Model, b: Model, maxRatio: real): (t: seq<seq<real>>)
    requires SameShape(a, b) && maxRatio > 0.0 && NoZeroCell(b)
    ensures HasShape(t, a.condBins, a.numGCBins)
    ensures forall i, j :: 0 <= i < a.condBins && 0 <= j < a.numGCBins ==>
              t[i][j] >= 1.0 / maxRatio
    ensures maxRatio >= 1.0 ==>
              forall i, j :: 0 <= i < a.condBins && 0 <= j < a.numGCBins ==> t[i][j] <= maxRatio
    ensures ExactWhereInRange(t, a, b, maxRatio)
    ensures SaturatesOutOfRange(t, a, b, maxRatio)
  {
    seq(a.condBins, i requires 0 <= i < a.condBins =>
      seq(a.numGCBins, j requires 0 <= j < a.numGCBins =>
        Clamp(a.counts[i][j] / b.counts[i][j], maxRatio)))
  }

  /** A LINEAR denominator holding non-negative counts never makes `ratio`
      divide by zero: the default prior keeps every normalised cell positive. */
  lemma RatioDefinedForCounts(o: Model, ops: LogArith)
    requires Valid(o) && !o.normalized && o.space == Linear && o.numGCBins >= 1
    requires forall i, j :: 0 <= i < o.condBins && 0 <= j < o.numGCBins ==> o.counts[i][j] >= 0.0
    ensures NoZeroCell(Normalize(o, DefaultPrior, ops))
  {
    NormalizedCellsPositive(o, DefaultPrior, ops);
  }
}
