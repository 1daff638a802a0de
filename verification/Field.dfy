/** The scalar field `Fr` and the two functions of it that the rollup treats as opaque. */
module Field {
  /** The order of the BN254 scalar field, the `Fr` of the fluidex_common crate. */
  const P: nat := 21888242871839275222246405745257275088548364400416034343698204186575808495617

  type Fr = x: nat | x < P

  /** The Poseidon hash, left uninterpreted: nothing about its values is known or used. */
  const POSEIDON: seq<Fr> -> Fr

  function Hash2(left: Fr, right: Fr): Fr {
    POSEIDON([left, right])
  }

  function Add(a: Fr, b: Fr): Fr {
    if a + b < P then a + b else a + b - P
  }

  function Sub(a: Fr, b: Fr): Fr {
    if b <= a then a - b else a + P - b
  }

  function Pow2(n: nat): (r: nat)
    ensures r >= 1
  {
    if n == 0 then 1 else 2 * Pow2(n - 1)
  }

  /** A left shift of a field element by `bits`. */
  function Shl(a: Fr, bits: nat): Fr {
    (a * Pow2(bits)) % P
  }

  lemma AddSub(a: Fr, b: Fr)
    ensures Sub(Add(a, b), b) == a
    ensures Add(Sub(a, b), b) == a
  {
  }

  lemma {:induction false} Pow2Monotone(a: nat, b: nat)
    requires a <= b
    ensures Pow2(a) <= Pow2(b)
    decreases b - a
  {
    if a < b {
      Pow2Monotone(a, b - 1);
    }
  }

  lemma {:induction false} Pow2Sum(a: nat, b: nat)
    ensures Pow2(a + b) == Pow2(a) * Pow2(b)
  {
    if a > 0 {
      Pow2Sum(a - 1, b);
      assert Pow2(a + b) == 2 * (Pow2(a - 1) * Pow2(b)) == Pow2(a) * Pow2(b);
    }
  }

  lemma MulAtLeast(k: int, n: nat)
    ensures k >= 1 ==> k * n >= n
    ensures k <= -1 ==> k * n + n <= 0
  {
  }

  lemma ModUnique(n: nat, q: nat, r: nat)
    requires r < n
    ensures (q * n + r) % n == r && (q * n + r) / n == q
  {
    var q', r' := (q * n + r) / n, (q * n + r) % n;
    assert (q - q') * n == r' - r;
    MulAtLeast(q - q', n);
  }

  lemma ModHalves(n: nat, m: nat)
    requires m > 0
    ensures n % (2 * m) == n % 2 + 2 * (n / 2 % m)
    ensures n < 2 * m ==> n / 2 < m && n % (2 * m) == n
  {
    var q, r := n / 2 / m, n / 2 % m;
    assert n / 2 == q * m + r;
    assert n == q * (2 * m) + (n % 2 + 2 * r);
    ModUnique(2 * m, q, n % 2 + 2 * r);
  }
}
