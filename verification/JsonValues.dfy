/**
 JSON values as serde_json holds them in memory, and the numeric views the engine takes of them.
 Decimal numbers are reals; which reals a 64- or 32-bit float can hold is left to a `Rounding`.
 */
module JsonValues {
  import opened Prelude

  const TWO_31: int := 0x8000_0000
  const TWO_32: int := 0x1_0000_0000
  const TWO_63: int := 0x8000_0000_0000_0000
  const TWO_64: int := 0x1_0000_0000_0000_0000

  type U64 = n: int | 0 <= n < 0x1_0000_0000_0000_0000
  type NegativeI64 = n: int | -0x8000_0000_0000_0000 <= n < 0 witness -1

  /** The integers that fit an i64 or a u64: what an integer column can hold. */
  type Whole = n: int | -0x8000_0000_0000_0000 <= n < 0x1_0000_0000_0000_0000

  /** A stored 32- or 64-bit float. */
  datatype Float = Finite(r: real) | PosInf | NegInf | NaN

  /** A JSON number: an unsigned integer, a strictly negative one, or a finite decimal. */
  datatype Number = PosInt(u: U64) | NegInt(i: NegativeI64) | Decimal(f: real)

  datatype Value =
    | Null
    | Bool(b: bool)
    | Num(n: Number)
    | Str(s: string)
    | Arr(items: seq<Value>)
    | Obj(members: map<string, Value>)

  /** The two conversions whose results depend on the float formats: integer to f64, and f64 to f32. */
  datatype Rounding = Rounding(toF64: int -> real, narrow: real -> Float)

  /** Narrowing a value that already is an f32 gives it back. */
  ghost predicate Lawful(rnd: Rounding) {
    forall x :: rnd.narrow(x).Finite? ==> rnd.narrow(rnd.narrow(x).r) == rnd.narrow(x)
  }

  function AsI64(v: Value): Option<Whole> {
    match v
    case Num(PosInt(u)) => if u < TWO_63 then Some(u) else None
    case Num(NegInt(i)) => Some(i)
    case _ => None
  }

  function AsU64(v: Value): Option<Whole> {
    match v
    case Num(PosInt(u)) => Some(u)
    case _ => None
  }

  function AsF64(rnd: Rounding, v: Value): Option<real> {
    match v
    case Num(PosInt(u)) => Some(rnd.toF64(u))
    case Num(NegInt(i)) => Some(rnd.toF64(i))
    case Num(Decimal(f)) => Some(f)
    case _ => None
  }

  function FromWhole(i: Whole): Value {
    if i < 0 then Num(NegInt(i)) else Num(PosInt(i))
  }

  /** A float that is not finite has no JSON form and is printed as null. */
  function FromFloat(f: Float): Value {
    match f
    case Finite(r) => Num(Decimal(r))
    case _ => Null
  }
}
