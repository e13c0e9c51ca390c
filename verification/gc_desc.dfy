/** The bin descriptor: a fragment's GC percentile and the GC percentile of
    its surrounding context, and the histogram bins they fall into. */
module GCDescriptor {

  /** Two integer GC percentiles, nominally in 0..100. */
  datatype GCDesc = GCDesc(fragFrac: int, contextFrac: int)

  /** A percentile the bin functions accept. */
  predicate IsPercentile(frac: int)
  {
    0 <= frac <= 100
  }

  /** Fragment bin at the fixed resolution of 101 bins: the percentile itself,
      which is the bin the parameterised accessor gives at 101 bins. */
  function FragBin(d: GCDesc): (b: int)
    ensures IsPercentile(d.fragFrac) ==> b == FragBinN(d, 101)
  {
    d.fragFrac
  }

  /** Context bin at the fixed resolution of 101 bins: the percentile itself,
      which is the bin the parameterised accessor gives at 101 bins. */
  function ContextBin(d: GCDesc): (b: int)
    ensures IsPercentile(d.contextFrac) ==> b == ContextBinN(d, 101)
  {
    d.contextFrac
  }

  /** Bin of `frac` among `n` equal-width bins over 0..100: the quotient of
      `frac` by the bin width `100/n`, truncated, with the top bin absorbing
      anything that would fall past it. Computed over exact rationals. */
  function BinOf(frac: int, n: int): (b: int)
    requires IsPercentile(frac) && n >= 1
    ensures 0 <= b <= n - 1
    ensures frac == 100 ==> b == n - 1
    ensures b * 100 <= frac * n
  {
    var q := (frac * n) / 100;
    if n - 1 < q then n - 1 else q
  }

  /** Fragment bin among `n` bins. */
  function FragBinN(d: GCDesc, n: int): (b: int)
    requires IsPercentile(d.fragFrac) && n >= 1
    ensures 0 <= b <= n - 1
    ensures d.fragFrac == 100 ==> b == n - 1
  {
    BinOf(d.fragFrac, n)
  }

  /** Context bin among `n` bins. */
  function ContextBinN(d: GCDesc, n: int): (b: int)
    requires IsPercentile(d.contextFrac) && n >= 1
    ensures 0 <= b <= n - 1
    ensures d.contextFrac == 100 ==> b == n - 1
  {
    BinOf(d.contextFrac, n)
  }

  /** At 101 bins the parameterised accessor agrees with the fixed one,
      which is why the fixed accessor can return the raw percentile. */
  lemma BinOfAt101(frac: int)
    requires IsPercentile(frac)
    ensures BinOf(frac, 101) == frac
  {
  }
}
