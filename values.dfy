/**
 * The dynamically typed values that reach the configuration code: a request's
 * JSON body decoded into Python scalars and one level of dictionaries.
 */
module Values {

  import opened Wrappers

  datatype Scalar = BoolV(b: bool) | IntV(i: int) | RealV(r: real) | StrV(s: string) | NoneV

  datatype Value = Leaf(scalar: Scalar) | Dict(entries: map<string, Scalar>)

  /** Python's truth value (`bool(v)`). */
  predicate Truthy(v: Value)
  {
    match v
    case Leaf(BoolV(b)) => b
    case Leaf(IntV(i)) => i != 0
    case Leaf(RealV(r)) => r != 0.0
    case Leaf(StrV(s)) => s != []
    case Leaf(NoneV) => false
    case Dict(m) => |m| != 0
  }

  /** The value as a number where Python's `max` can compare it with an
      `int`: `bool` is a subclass of `int`; strings, `None` and dictionaries
      are not comparable with numbers. */
  function Numeric(v: Value): (r: Option<real>)
    ensures r.Some? <==> v.Leaf? && (v.scalar.BoolV? || v.scalar.IntV? || v.scalar.RealV?)
  {
    match v
    case Leaf(BoolV(b)) => Some(if b then 1.0 else 0.0)
    case Leaf(IntV(i)) => Some(i as real)
    case Leaf(RealV(r)) => Some(r)
    case _ => None
  }
}
