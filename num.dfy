/** Column values of the pipeline's numeric columns.
    The tables hold floating-point columns; the model keeps their values exact
    (`real`) and keeps the three non-finite values the engine can produce and
    later tests for: a division by zero gives an infinity (or NaN for 0/0), a
    missing value after a left merge is NaN. */
module Num {
  import opened Wrappers

  datatype Value = Fin(v: real) | PosInf | NegInf | NaN

  /** -1, 0 or 1; NaN has no sign and is given 0. */
  function Sign(a: Value): int {
    match a
    case Fin(x) => if x > 0.0 then 1 else if x < 0.0 then -1 else 0
    case PosInf => 1
    case NegInf => -1
    case NaN => 0
  }

  /** The infinity with sign `s` (s is 1 or -1). */
  function Inf(s: int): Value {
    if s > 0 then PosInf else NegInf
  }

  function Neg(a: Value): Value {
    match a
    case Fin(x) => Fin(-x)
    case PosInf => NegInf
    case NegInf => PosInf
    case NaN => NaN
  }

  function Add(a: Value, b: Value): (r: Value)
    ensures (a.NaN? || b.NaN?) ==> r.NaN?
  {
    match (a, b)
    case (NaN, _) => NaN
    case (_, NaN) => NaN
    case (PosInf, NegInf) => NaN
    case (NegInf, PosInf) => NaN
    case (PosInf, _) => PosInf
    case (NegInf, _) => NegInf
    case (_, PosInf) => PosInf
    case (_, NegInf) => NegInf
    case (Fin(x), Fin(y)) => Fin(x + y)
  }

  function Sub(a: Value, b: Value): Value {
    Add(a, Neg(b))
  }

  function Mul(a: Value, b: Value): (r: Value)
    ensures (a.NaN? || b.NaN?) ==> r.NaN?
  {
    if a.NaN? || b.NaN? then NaN
    else if a.Fin? && b.Fin? then Fin(a.v * b.v)
    else if Sign(a) == 0 || Sign(b) == 0 then NaN   // infinity times zero
    else Inf(Sign(a) * Sign(b))
  }

  function Div(a: Value, b: Value): (r: Value)
    ensures (a.NaN? || b.NaN?) ==> r.NaN?
  {
    if a.NaN? || b.NaN? then NaN
    else if a.Fin? && b.Fin? then
      if b.v != 0.0 then Fin(a.v / b.v)
      else if a.v == 0.0 then NaN                   // 0 / 0
      else Inf(Sign(a))                             // x / 0
    else if !a.Fin? && !b.Fin? then NaN              // inf / inf
    else if a.Fin? then Fin(0.0)                     // x / inf
    else if Sign(b) == 0 then a                      // inf / 0
    else Inf(Sign(a) * Sign(b))
  }

  /** numpy's element-wise maximum: NaN if either operand is NaN. */
  function Max(a: Value, b: Value): (r: Value)
    ensures (a.NaN? || b.NaN?) ==> r.NaN?
    ensures !a.NaN? && !b.NaN? ==> r == a || r == b
  {
    match (a, b)
    case (NaN, _) => NaN
    case (_, NaN) => NaN
    case (PosInf, _) => PosInf
    case (_, PosInf) => PosInf
    case (NegInf, _) => b
    case (_, NegInf) => a
    case (Fin(x), Fin(y)) => if x >= y then a else b
  }

  /** `fillna(d)`: a missing value becomes `d`, anything else is kept. */
  function FillNaN(a: Value, d: real): (r: Value)
    ensures !r.NaN?
    ensures !a.NaN? ==> r == a
  {
    if a.NaN? then Fin(d) else a
  }

  /** `replace(0, 1)`. */
  function ZeroToOne(a: Value): (r: Value)
    ensures r != Fin(0.0)
  {
    if a == Fin(0.0) then Fin(1.0) else a
  }

  /** `replace([inf, -inf], 0)`: infinities become 0, NaN stays. */
  function InfToZero(a: Value): (r: Value)
    ensures !r.PosInf? && !r.NegInf?
    ensures r.NaN? <==> a.NaN?
  {
    if a.PosInf? || a.NegInf? then Fin(0.0) else a
  }

  /** A missing optional number (absent after a left merge) is NaN. */
  function OrNaN(x: Option<real>): Value {
    match x
    case Some(v) => Fin(v)
    case None => NaN
  }
}
