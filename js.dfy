/** JavaScript values as the two core files use them: options that may be
    missing, the truthiness test behind `a || b`, and the exact rational
    stand-in for the floating-point jitter multiplier. */
module Js {

  datatype Option<+T> = None | Some(value: T)

  /** A numeric option is truthy when it is present and not 0
      (`undefined` and `0` are the falsy numbers the options can hold). */
  predicate TruthyInt(o: Option<int>) {
    o.Some? && o.value != 0
  }

  /** A certificate, key or CA option: a PEM string, a Buffer, or an array
      of these (as `ca` is often given). */
  datatype Material = Text(text: string) | Buffer(bytes: seq<bv8>) | Array(items: seq<Material>)

  /** Only the empty string is falsy; a Buffer or an array is an object, so
      it is truthy even when empty. */
  predicate TruthyMaterial(o: Option<Material>) {
    o.Some? && (o.value.Text? ==> o.value.text != "")
  }

  /** `o || d` for a numeric option with a numeric default: falsy only when
      both operands are. */
  function OrInt(o: Option<int>, d: int): (r: int)
    ensures r != 0 <==> TruthyInt(o) || d != 0
    ensures TruthyInt(o) ==> r == o.value
    ensures !TruthyInt(o) ==> r == d
  {
    if TruthyInt(o) then o.value else d
  }

  /** `a || b` on two material options: the first operand when it is
      truthy, otherwise the second, whatever it is. */
  function OrMaterial(a: Option<Material>, b: Option<Material>): (r: Option<Material>)
    ensures TruthyMaterial(r) <==> TruthyMaterial(a) || TruthyMaterial(b)
    ensures TruthyMaterial(a) ==> r == a
    ensures !TruthyMaterial(a) ==> r == b
  {
    if TruthyMaterial(a) then a else b
  }

  /** A rational number num/den; the multiplier 1.2 is Ratio(6, 5). */
  datatype Ratio = Ratio(num: int, den: int)

  type Fraction = r: Ratio | r.den > 0 witness Ratio(1, 1)

  /** A draw of `Math.random()`: a rational in [0, 1). */
  type UnitDraw = u: Ratio | 0 <= u.num < u.den witness Ratio(0, 1)

  predicate TruthyFraction(o: Option<Fraction>) {
    o.Some? && o.value.num != 0
  }

  /** `o || d` for the multiplier: falsy only when both operands are. */
  function OrFraction(o: Option<Fraction>, d: Fraction): (r: Fraction)
    ensures r.num != 0 <==> TruthyFraction(o) || d.num != 0
    ensures TruthyFraction(o) ==> r == o.value
    ensures !TruthyFraction(o) ==> r == d
  {
    if TruthyFraction(o) then o.value else d
  }

  /** `Math.floor(x * f)` computed exactly: the largest integer not above x·f. */
  function FloorMul(x: int, f: Fraction): (r: int)
    ensures r * f.den <= x * f.num < (r + 1) * f.den
  {
    var q := (x * f.num) / f.den;
    assert q * f.den + (x * f.num) % f.den == x * f.num;
    q
  }
}
