/** The IEEE-754 double-precision numbers of Go's float64, kept abstract.
    The element type F is left open, and every operation the calculator
    takes from the language, from package math and from strconv is a
    field of one record, so that no property proved here depends on how
    floating point rounds. */
module Numerics {
  import opened Wrappers

  datatype Float64<!F> = Float64(
    // the operators of BinaryOpNode.Eval
    add: (F, F) -> F,
    sub: (F, F) -> F,
    mul: (F, F) -> F,
    quo: (F, F) -> F,
    // math.Sqrt, math.Abs, math.Pow, the trigonometric functions, math.Max, math.Min
    sqrt: F -> F,
    abs: F -> F,
    pow: (F, F) -> F,
    cos: F -> F,
    sin: F -> F,
    tan: F -> F,
    acos: F -> F,
    asin: F -> F,
    atan: F -> F,
    max: (F, F) -> F,
    min: (F, F) -> F,
    // the constants 0, math.NaN(), math.Pi and math.E
    zero: F,
    nan: F,
    pi: F,
    e: F,
    // strconv.ParseFloat(text, 64); None stands for the error it returns
    parseFloat: seq<char> -> Option<F>
  )
}
