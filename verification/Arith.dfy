/** Facts about `*`, `/` and `%` with variable operands, each kept to a few products. */
module Arith {

  lemma MulSub(a: int, b: int, k: int)
    ensures (a - b) * k == a * k - b * k
  {
  }

  lemma MulAtLeast(x: int, k: nat)
    requires x >= 1
    ensures x * k >= k
  {
  }

  lemma DivModDef(a: nat, k: nat)
    requires k > 0
    ensures a / k >= 0 && 0 <= a % k < k
    ensures a == (a / k) * k + a % k
  {
  }

  lemma QuotientUnique(k: nat, q: int, r: nat, q': int, r': nat)
    requires r < k && r' < k && q * k + r == q' * k + r'
    ensures q == q' && r == r'
  {
    MulSub(q, q', k);
    MulSub(q', q, k);
    if q > q' {
      MulAtLeast(q - q', k);
    } else if q' > q {
      MulAtLeast(q' - q, k);
    }
  }

  lemma DivModUnique(a: nat, k: nat, q: nat, r: nat)
    requires k > 0 && a == q * k + r && r < k
    ensures a / k == q && a % k == r
  {
    DivModDef(a, k);
    QuotientUnique(k, q, r, a / k, a % k);
  }

  lemma MulAdd(a: int, b: int, k: int)
    ensures (a + b) * k == a * k + b * k
  {
  }

  lemma DivModSum(q: nat, k: nat, y: nat)
    requires k > 0
    ensures q * k + y >= 0
    ensures (q * k + y) / k == q + y / k
    ensures (q * k + y) % k == y % k
  {
    DivModDef(y, k);
    MulAdd(q, y / k, k);
    DivModUnique(q * k + y, k, q + y / k, y % k);
  }

  lemma ModSmall(a: nat, k: nat)
    requires a < k
    ensures a / k == 0 && a % k == a
  {
    DivModUnique(a, k, 0, a);
  }

  /** Adding before or after reducing gives the same residue. */
  lemma ModAdd(a: nat, b: nat, k: nat)
    requires k > 0
    ensures (a % k + b) % k == (a + b) % k
  {
    DivModDef(a, k);
    DivModSum(a / k, k, a % k + b);
  }

  lemma ModShift(a: nat, b: nat, c: nat, k: nat)
    requires k > 0
    ensures (a + (b + c)) % k == ((a + b) % k + c) % k
  {
    assert a + (b + c) == (a + b) + c;
    ModAdd(a + b, c, k);
  }

  /** Dividing twice is dividing by the product. */
  lemma DivDiv(v: nat, a: nat, b: nat)
    requires a > 0 && b > 0
    ensures a * b > 0 && v / (a * b) == v / a / b
  {
    var q, r := v / a, v % a;
    var p, t := q / b, q % b;
    DivModDef(v, a);
    DivModDef(q, b);
    RemainderBelow(t, b, r, a);
    Regroup(p, b, t, a, r);
    DivModUnique(v, a * b, p, t * a + r);
  }

  lemma RemainderBelow(t: nat, b: nat, r: nat, a: nat)
    requires t < b && r < a
    ensures 0 <= t * a + r < a * b
  {
    MulSub(b, t, a);
    MulAtLeast(b - t, a);
  }

  lemma Regroup(p: nat, b: nat, t: nat, a: nat, r: nat)
    ensures (p * b + t) * a + r == p * (a * b) + (t * a + r)
  {
    MulAdd(p * b, t, a);
    assert p * b * a == p * (a * b);
  }
}
