/** The four conversion formulas that the conversion generator writes into
    the generated `FromBase` and `ToBase` switches
    (Source/GraduatedCylinder.Roslyn/IoT/UnitConverterGenerator.cs), over
    real numbers. A division by zero, which gives an infinity or NaN in the
    generated `float` code, gives `NonFinite`; `tan` and `atan` are taken as
    parameters. */
module Conversions {

  /** A generated `float`: a real number, or one of IEEE's non-finite values. */
  datatype Num = Finite(r: real) | NonFinite

  /** A conversion attribute of namespace `GraduatedCylinder.Scales`. */
  datatype Policy =
    | Scale(scale: real)                            // [Scale(s)]
    | ScaleAndOffset(scale: real, offset: real)     // [ScaleAndOffset(s, off)]
    | ScaleInversely(numerator: real, scale: real)  // [ScaleInversely(n, s)]
    | PercentGrade                                  // [PercentGrade]

  function Add(a: Num, b: Num): Num {
    if a.Finite? && b.Finite? then Finite(a.r + b.r) else NonFinite
  }

  function Sub(a: Num, b: Num): Num {
    if a.Finite? && b.Finite? then Finite(a.r - b.r) else NonFinite
  }

  function Mul(a: Num, b: Num): Num {
    if a.Finite? && b.Finite? then Finite(a.r * b.r) else NonFinite
  }

  function Div(a: Num, b: Num): (r: Num)
    ensures r.Finite? <==> a.Finite? && b.Finite? && b.r != 0.0
  {
    if a.Finite? && b.Finite? && b.r != 0.0 then Finite(a.r / b.r) else NonFinite
  }

  function Apply(f: real -> real, a: Num): Num {
    if a.Finite? then Finite(f(a.r)) else NonFinite
  }

  /** The value of the generated `FromBase` case: from the base unit to the
      unit the policy describes. */
  function FromBaseValue(p: Policy, baseValue: Num, tan: real -> real): Num {
    match p
    case Scale(s) => Div(baseValue, Finite(s))
    case ScaleAndOffset(s, off) => Add(Mul(baseValue, Finite(s)), Finite(off))
    case ScaleInversely(n, s) => Div(Finite(n), Div(baseValue, Finite(s)))
    case PercentGrade => Mul(Apply(tan, baseValue), Finite(100.0))
  }

  /** The value of the generated `ToBase` case: from the policy's unit to
      the base unit. For `ScaleInversely` this is the formula the
      generator's comment gives, `(n / value) * s`; the line it emits has one
      `)` too many (`UnitConverterGeneration.ScaleInverselyToBaseUnbalanced`),
      so as written such a converter does not compile and has no value. */
  function ToBaseValue(p: Policy, value: Num, atan: real -> real): Num {
    match p
    case Scale(s) => Mul(value, Finite(s))
    case ScaleAndOffset(s, off) => Div(Sub(value, Finite(off)), Finite(s))
    case ScaleInversely(n, s) => Mul(Div(Finite(n), value), Finite(s))
    case PercentGrade => Apply(atan, Div(value, Finite(100.0)))
  }

  /** When the algebraic policies convert `v` both ways without a division
      by zero. */
  predicate Invertible(p: Policy, v: real) {
    match p
    case Scale(s) => s != 0.0
    case ScaleAndOffset(s, _) => s != 0.0
    case ScaleInversely(n, s) => n != 0.0 && s != 0.0 && v != 0.0
    case PercentGrade => false
  }

  /** Converting to the base unit and back gives the value back. */
  lemma ToBaseThenFromBase(p: Policy, v: real, tan: real -> real, atan: real -> real)
    requires Invertible(p, v)
    ensures ToBaseValue(p, Finite(v), atan).Finite?
    ensures FromBaseValue(p, ToBaseValue(p, Finite(v), atan), tan) == Finite(v)
  {
    match p
    case Scale(s) => ScaleRoundTrips(s, v, tan, atan);
    case ScaleAndOffset(s, off) => OffsetRoundTrips(s, off, v, tan, atan);
    case ScaleInversely(n, s) => InverseToBaseThenFromBase(n, s, v, tan, atan);
  }

  /** Converting from the base unit and back gives the base value back. */
  lemma FromBaseThenToBase(p: Policy, b: real, tan: real -> real, atan: real -> real)
    requires Invertible(p, b)
    ensures FromBaseValue(p, Finite(b), tan).Finite?
    ensures ToBaseValue(p, FromBaseValue(p, Finite(b), tan), atan) == Finite(b)
  {
    match p
    case Scale(s) => ScaleRoundTrips(s, b, tan, atan);
    case ScaleAndOffset(s, off) => OffsetRoundTrips(s, off, b, tan, atan);
    case ScaleInversely(n, s) => InverseFromBaseThenToBase(n, s, b, tan, atan);
  }

  /** `[Scale(s)]` both ways. */
  lemma ScaleRoundTrips(s: real, x: real, tan: real -> real, atan: real -> real)
    requires s != 0.0
    ensures ToBaseValue(Scale(s), Finite(x), atan) == Finite(x * s)
    ensures FromBaseValue(Scale(s), Finite(x * s), tan) == Finite(x)
    ensures FromBaseValue(Scale(s), Finite(x), tan) == Finite(x / s)
    ensures ToBaseValue(Scale(s), Finite(x / s), atan) == Finite(x)
  {
    ScaleCancels(x, s);
  }

  /** `[ScaleAndOffset(s, off)]` both ways. */
  lemma OffsetRoundTrips(s: real, off: real, x: real, tan: real -> real, atan: real -> real)
    requires s != 0.0
    ensures ToBaseValue(ScaleAndOffset(s, off), Finite(x), atan) == Finite((x - off) / s)
    ensures FromBaseValue(ScaleAndOffset(s, off), Finite((x - off) / s), tan) == Finite(x)
    ensures FromBaseValue(ScaleAndOffset(s, off), Finite(x), tan) == Finite(x * s + off)
    ensures ToBaseValue(ScaleAndOffset(s, off), Finite(x * s + off), atan) == Finite(x)
  {
    ScaleCancels(x - off, s);
    ScaleCancels(x, s);
    assert x * s + off - off == x * s;
  }

  /** `[ScaleInversely(n, s)]`, from the unit and back. */
  lemma InverseToBaseThenFromBase(n: real, s: real, v: real, tan: real -> real, atan: real -> real)
    requires n != 0.0 && s != 0.0 && v != 0.0
    ensures ToBaseValue(ScaleInversely(n, s), Finite(v), atan) == Finite((n / v) * s)
    ensures FromBaseValue(ScaleInversely(n, s), Finite((n / v) * s), tan) == Finite(v)
  {
    InverseCancels(n, v);
    ScaleCancels(n / v, s);
  }

  /** `[ScaleInversely(n, s)]`, from the base unit and back. */
  lemma InverseFromBaseThenToBase(n: real, s: real, b: real, tan: real -> real, atan: real -> real)
    requires n != 0.0 && s != 0.0 && b != 0.0
    ensures FromBaseValue(ScaleInversely(n, s), Finite(b), tan) == Finite(n / (b / s))
    ensures ToBaseValue(ScaleInversely(n, s), Finite(n / (b / s)), atan) == Finite(b)
  {
    InverseCancels(b, s);
    InverseCancels(n, b / s);
    ScaleCancels(b, s);
  }

  /** Multiplying and dividing by the same non-zero scale cancel. */
  lemma ScaleCancels(x: real, s: real)
    requires s != 0.0
    ensures (x * s) / s == x && (x / s) * s == x
  {
  }

  /** Dividing a non-zero numerator twice gives the divisor back. */
  lemma InverseCancels(n: real, x: real)
    requires n != 0.0 && x != 0.0
    ensures n / x != 0.0 && n / (n / x) == x
  {
    assert (n / x) * x == n;
  }

  /** Grade percent inverts wherever `tan` undoes `atan`, as it does on the
      principal branch. */
  lemma PercentGradeRoundTrip(v: real, tan: real -> real, atan: real -> real)
    requires tan(atan(v / 100.0)) == v / 100.0
    ensures FromBaseValue(PercentGrade, ToBaseValue(PercentGrade, Finite(v), atan), tan) == Finite(v)
  {
  }

}
