/** JavaScript numbers as the diarization path uses them: exact reals, plus the
    NaN that a 0/0 produces. Infinities never arise on these paths. */
module Numbers {

  datatype Num = Finite(v: real) | NaN

  /** `a - b`; NaN is absorbing. */
  function Sub(a: Num, b: Num): Num {
    if a.Finite? && b.Finite? then Finite(a.v - b.v) else NaN
  }

  /** `a + b`; NaN is absorbing. */
  function Add(a: Num, b: Num): Num {
    if a.Finite? && b.Finite? then Finite(a.v + b.v) else NaN
  }

  /** `Math.pow(a, 2)`. */
  function Square(a: Num): Num {
    if a.Finite? then Finite(a.v * a.v) else NaN
  }

  /** `a / d` for a divisor that is never zero on the paths that use it. */
  function DivBy(a: Num, d: real): Num
    requires d != 0.0
  {
    if a.Finite? then Finite(a.v / d) else NaN
  }

  /** JavaScript `a < b`: every comparison with NaN is false. */
  predicate Less(a: Num, b: Num) {
    a.Finite? && b.Finite? && a.v < b.v
  }

  /** JavaScript truthiness of a number: 0 and NaN are falsy. */
  predicate Truthy(a: Num) {
    a.Finite? && a.v != 0.0
  }

  /** `Math.min(a, b)` / `Math.max(a, b)`: NaN if either argument is NaN. */
  function Min2(a: Num, b: Num): Num {
    if a.Finite? && b.Finite? then Finite(if a.v <= b.v then a.v else b.v) else NaN
  }

  function Max2(a: Num, b: Num): Num {
    if a.Finite? && b.Finite? then Finite(if a.v >= b.v then a.v else b.v) else NaN
  }

  predicate AllFinite(xs: seq<Num>) {
    forall i :: 0 <= i < |xs| ==> xs[i].Finite?
  }
}
