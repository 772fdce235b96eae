/** Products and quotients of naturals, for the lemmas that need them. */
module Arithmetic {

  lemma MulMono(a: nat, b: nat, c: nat)
    requires a <= b
    ensures a * c <= b * c
  {
    assert b * c - a * c == (b - a) * c;
  }

  lemma DivIs(a: nat, b: nat, q: nat, r: nat)
    requires b > 0 && a == q * b + r && r < b
    ensures a / b == q && a % b == r
  {
    var k := a / b;
    assert a == k * b + a % b;
    if k < q { MulMono(k + 1, q, b); }
    if q < k { MulMono(q + 1, k, b); }
  }
}
