/** Small vocabulary shared by every component of the model. */
module Prelude {

  datatype Option<+T> = None | Some(value: T)

  const U32_MAX: nat := 0xFFFF_FFFF
  const U64_MAX: nat := 0xFFFF_FFFF_FFFF_FFFF

  function Min(a: int, b: int): int {
    if a <= b then a else b
  }

  function Max(a: int, b: int): int {
    if a >= b then a else b
  }

  /** Rust's `saturating_sub` on unsigned integers. */
  function SatSub(a: nat, b: nat): nat {
    if a <= b then 0 else a - b
  }

  /** Ceiling of a division; both operands are unsigned in the source. */
  function CeilDiv(a: nat, b: nat): nat
    requires b > 0
  {
    (a + (b - 1)) / b
  }

  lemma {:induction false} CeilDivBounds(a: nat, b: nat)
    requires b > 0
    ensures var r := CeilDiv(a, b); b * r >= a && (r > 0 ==> b * (r - 1) < a)
  {
  }

  lemma {:induction false} MulMonotone(x: int, y: int, d: nat)
    ensures x <= y ==> d * x <= d * y
  {
  }

  /** `CeilDiv(a, d)` is the least number of `d`s that reaches `a`. */
  lemma {:induction false} CeilDivLeast(a: nat, d: nat, q: nat)
    requires d > 0 && d * q >= a
    ensures CeilDiv(a, d) <= q
  {
    CeilDivBounds(a, d);
    MulMonotone(q, CeilDiv(a, d) - 1, d);
  }

  /** Adding numerators never makes the summed ceilings smaller. */
  lemma {:induction false} CeilDivSubadditive(a: nat, b: nat, d: nat)
    requires d > 0
    ensures CeilDiv(a + b, d) <= CeilDiv(a, d) + CeilDiv(b, d)
  {
    var x, y := CeilDiv(a, d), CeilDiv(b, d);
    CeilDivBounds(a, d);
    CeilDivBounds(b, d);
    assert d * (x + y) == d * x + d * y;
    CeilDivLeast(a + b, d, x + y);
  }

  lemma {:induction false} CeilDivMonotone(a: nat, b: nat, d: nat)
    requires d > 0 && a <= b
    ensures CeilDiv(a, d) <= CeilDiv(b, d)
  {
    CeilDivBounds(b, d);
    CeilDivLeast(a, d, CeilDiv(b, d));
  }

  lemma {:induction false} CeilDivExact(q: nat, d: nat)
    requires d > 0
    ensures CeilDiv(d * q, d) == q
  {
    CeilDivBounds(d * q, d);
    CeilDivLeast(d * q, d, q);
    MulMonotone(CeilDiv(d * q, d), q - 1, d);
    assert d * (q - 1) == d * q - d;
  }
}
