/** Small vocabulary shared by the other modules. */
module Common {

  datatype Option<+T> = None | Some(value: T)

  function RMax(a: real, b: real): real {
    if a >= b then a else b
  }

  function RMin(a: real, b: real): real {
    if a <= b then a else b
  }

  function Min(a: int, b: int): int {
    if a <= b then a else b
  }

  function Max(a: int, b: int): int {
    if a >= b then a else b
  }

  /** Subtraction on unsigned integers that stops at zero. */
  function SatSub(a: nat, b: nat): nat {
    if a >= b then a - b else 0
  }

  // ----- Products keep order -----

  lemma MulLe(a: nat, b: nat, c: nat)
    requires a <= b
    ensures a * c <= b * c
  {
  }

  lemma MulLess(a: nat, b: nat, c: nat)
    requires a < b && c > 0
    ensures a * c < b * c
  {
  }

  lemma MulMono(c: real, x: real, y: real)
    requires c >= 0.0 && x <= y
    ensures c * x <= c * y
  {
    assert c * (y - x) >= 0.0;
  }

  lemma MulStrict(c: real, x: real, y: real)
    requires c > 0.0
    ensures c * x < c * y <==> x < y
    ensures c * x <= c * y <==> x <= y
    ensures c * x == c * y <==> x == y
  {
    if x < y {
      assert c * (y - x) > 0.0;
    } else if y < x {
      assert c * (x - y) > 0.0;
    }
  }
}
