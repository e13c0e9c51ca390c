/** The log-domain arithmetic the model is built on. Its definitions live
    outside the modelled code, so the model takes them as parameters and
    assumes nothing about their values: every claim about a LOG-space table
    is about which cells an operation touches, never about the numbers. */
module LogMath {

  /** The primitives, as total functions on reals.
      - `log0`: the sentinel standing for probability zero (LOG_0)
      - `logAdd(a, b)`: log(exp(a) + exp(b))
      - `isLog0(x)`: whether `x` is the sentinel
      - `ln`, `exp`: natural logarithm and exponential */
  datatype LogArith = LogArith(
    log0: real,
    logAdd: (real, real) -> real,
    isLog0: real -> bool,
    ln: real -> real,
    exp: real -> real)
}
