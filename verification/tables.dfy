/** Dense row-major tables of exact reals and the row sums the model needs.
    A table is a sequence of rows; a well-formed `rows x cols` table has
    exactly `rows` rows of exactly `cols` cells each. */
module Tables {

  /** The table has `rows` rows, each of `cols` cells. */
  predicate HasShape(t: seq<seq<real>>, rows: nat, cols: nat)
  {
    |t| == rows && forall r :: 0 <= r < |t| ==> |t[r]| == cols
  }

  /** A `rows x cols` table holding `v` in every cell. */
  function Filled(rows: nat, cols: nat, v: real): (t: seq<seq<real>>)
    ensures HasShape(t, rows, cols)
    ensures forall r, c :: 0 <= r < rows && 0 <= c < cols ==> t[r][c] == v
  {
    seq(rows, r => seq(cols, c => v))
  }

  /** Sum of a row, accumulated left to right as `normalize`'s LINEAR row-mass loop does. */
  function Sum(s: seq<real>): real
    decreases |s|
  {
    if |s| == 0 then 0.0 else Sum(s[..|s| - 1]) + s[|s| - 1]
  }

  /** Every element of `s` multiplied by `k`. */
  function Scale(s: seq<real>, k: real): (t: seq<real>)
    ensures |t| == |s|
    ensures forall i :: 0 <= i < |s| ==> t[i] == s[i] * k
  {
    seq(|s|, i requires 0 <= i < |s| => s[i] * k)
  }

  /** Overwriting one element changes the sum by the difference. */
  lemma {:induction false} SumUpdate(s: seq<real>, i: nat, v: real)
    requires i < |s|
    ensures Sum(s[i := v]) == Sum(s) - s[i] + v
    decreases |s|
  {
    var n := |s| - 1;
    if i == n {
      assert s[i := v][..n] == s[..n];
    } else {
      assert s[i := v][..n] == s[..n][i := v];
      SumUpdate(s[..n], i, v);
    }
  }

  /** Scaling every element scales the sum. */
  lemma {:induction false} SumScale(s: seq<real>, k: real)
    ensures Sum(Scale(s, k)) == Sum(s) * k
    decreases |s|
  {
    if |s| > 0 {
      var n := |s| - 1;
      assert forall i :: 0 <= i < n ==> Scale(s, k)[..n][i] == Scale(s[..n], k)[i];
      assert Scale(s, k)[..n] == Scale(s[..n], k);
      SumScale(s[..n], k);
      Distribute(Sum(s[..n]), s[n], k);
    }
  }

  lemma Distribute(a: real, b: real, k: real)
    ensures (a + b) * k == a * k + b * k
  {
  }

  /** A non-empty row of strictly positive values has a strictly positive sum. */
  lemma {:induction false} SumPositive(s: seq<real>)
    requires |s| >= 1
    requires forall i :: 0 <= i < |s| ==> s[i] > 0.0
    ensures Sum(s) > 0.0
    decreases |s|
  {
    var n := |s| - 1;
    if n >= 1 {
      SumPositive(s[..n]);
    }
  }

  /** A row of zeros sums to zero. */
  lemma {:induction false} SumZeros(s: seq<real>)
    requires forall i :: 0 <= i < |s| ==> s[i] == 0.0
    ensures Sum(s) == 0.0
    decreases |s|
  {
    if |s| > 0 {
      SumZeros(s[..|s| - 1]);
    }
  }
}
