/** Worked examples of the model on concrete inputs. */
module Scenarios {
  import opened Tables
  import opened GCDescriptor
  import opened LogMath
  import opened GCFragModel

  /** One context bin, LINEAR space, no prior: three unit observations at
      fragment percentile 50 and one at 90 normalise to 3/4 and 1/4, and
      every other cell to 0. */
  lemma {:induction false} ThreeToOneScenario(ops: LogArith)
    ensures var d50 := GCDesc(50, 0);
            var d90 := GCDesc(90, 0);
            var m0 := Init(1, 101, Linear, ops);
            var m1 := Inc(m0, d50, 1.0, ops);
            var m2 := Inc(m1, d50, 1.0, ops);
            var m3 := Inc(m2, d50, 1.0, ops);
            var m4 := Inc(m3, d90, 1.0, ops);
            var n := Normalize(m4, 0.0, ops);
            && n.counts[0][50] == 0.75
            && n.counts[0][90] == 0.25
            && forall j :: 0 <= j < 101 && j != 50 && j != 90 ==> n.counts[0][j] == 0.0
  {
    var d50 := GCDesc(50, 0);
    var d90 := GCDesc(90, 0);
    var m0 := Init(1, 101, Linear, ops);
    var m1 := Inc(m0, d50, 1.0, ops);
    var m2 := Inc(m1, d50, 1.0, ops);
    var m3 := Inc(m2, d50, 1.0, ops);
    var m4 := Inc(m3, d90, 1.0, ops);
    var n := Normalize(m4, 0.0, ops);
    SumZeros(AddPrior(m0.counts[0], 0.0));
    IncRowMass(m0, d50, 1.0, 0.0, ops);
    IncRowMass(m1, d50, 1.0, 0.0, ops);
    IncRowMass(m2, d50, 1.0, 0.0, ops);
    IncRowMass(m3, d90, 1.0, 0.0, ops);
    assert RowMass(m4.counts[0], 0.0) == 4.0;
    assert m4.counts[0][50] == 3.0;
    assert m4.counts[0][90] == 1.0;
  }

  /** Two normalised single-row models that differ only at fragment bin 10,
      where they hold 0.8 and 0.1: with `maxRatio = 10` the ratio there is
      exactly 8, and 1 everywhere else. */
  lemma RatioScenario(s: seq<real>, ops: LogArith)
    requires |s| == 101
    requires forall j :: 0 <= j < 101 ==> s[j] > 0.0
    ensures var a := Model(1, 101, Linear, true, [s[10 := 0.8]]);
            var b := Model(1, 101, Linear, true, [s[10 := 0.1]]);
            && NoZeroCell(Normalize(b, DefaultPrior, ops))
            && Ratio(a, b, 10.0, ops).ratio.counts[0][10] == 8.0
            && forall j :: 0 <= j < 101 && j != 10 ==> Ratio(a, b, 10.0, ops).ratio.counts[0][j] == 1.0
  {
  }

  /** Combining a LOG model with a LINEAR one is refused. */
  lemma MismatchedSpacesScenario(ops: LogArith)
    ensures CombineCounts(Init(3, 101, Log, ops), Init(3, 101, Linear, ops), ops).Err?
  {
  }
}
