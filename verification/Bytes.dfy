/** Octets, results and the two or three arithmetic facts every codec needs.
    Octets are integers below 256, so masks and shifts are written as `%` and `/`. */
module Bytes {
  type u8 = x: int | 0 <= x < 0x100

  datatype Option<+T> = None | Some(value: T)

  datatype Result<+T, +E> = Ok(value: T) | Err(error: E)

  const TWO_62: nat := 0x4000_0000_0000_0000
  const TWO_63: nat := 0x8000_0000_0000_0000
  const TWO_64: nat := 0x1_0000_0000_0000_0000

  function Pow2(n: nat): (p: nat)
    ensures p >= 1
  {
    if n == 0 then 1 else 2 * Pow2(n - 1)
  }

  lemma {:induction false} Pow2Add(m: nat, n: nat)
    ensures Pow2(m + n) == Pow2(m) * Pow2(n)
  {
    if m == 0 {
    } else {
      Pow2Add(m - 1, n);
    }
  }

  /** The bytes of a list of chunks, in order. */
  function Join(chunks: seq<seq<u8>>): seq<u8> {
    if chunks == [] then [] else chunks[0] + Join(chunks[1..])
  }

  lemma SubsetCard<T(!new)>(a: set<T>, b: set<T>)
    requires a <= b
    ensures |a| <= |b|
    ensures |a| == |b| ==> a == b
  {
    assert |b| == |a| + |b - a| by {
      assert b == a + (b - a);
    }
    if |a| == |b| {
      assert b - a == {};
    }
  }

  lemma MulOrder(q: int, q': int, d: nat)
    requires q < q'
    ensures q * d + d <= q' * d
  {
    var k := q' - q - 1;
    assert q' * d == q * d + d + k * d;
    assert k * d >= 0;
  }

  lemma EuclidUnique(d: nat, q: int, r: nat, q': int, r': nat)
    requires r < d && r' < d && q * d + r == q' * d + r'
    ensures q == q' && r == r'
  {
    if q < q' {
      MulOrder(q, q', d);
    } else if q' < q {
      MulOrder(q', q, d);
    }
  }

  lemma DivModUnique(n: nat, d: nat, q: int, r: nat)
    requires r < d && n == q * d + r
    ensures n / d == q && n % d == r
  {
    EuclidUnique(d, q, r, n / d, n % d);
  }

  /** Splitting a remainder at a divisor of the modulus. */
  lemma DivDiv(v: nat, a: nat, b: nat)
    requires a > 0 && b > 0
    ensures a * b > 0
    ensures v / a / b == v / (a * b)
    ensures v % (a * b) == (v / a % b) * a + v % a
  {
    var s, t := v / a, v % a;
    SplitProduct(v, a, b, s, t, s / b, s % b);
  }

  lemma Distribute(q: int, b: int, r: int, a: int)
    ensures (q * b + r) * a == q * (b * a) + r * a
  {
  }

  lemma SplitProduct(v: nat, a: nat, b: nat, s: nat, t: nat, q: nat, r: nat)
    requires a > 0 && b > 0 && t < a && r < b
    requires v == s * a + t && s == q * b + r
    ensures a * b > 0 && v / (a * b) == q && v % (a * b) == r * a + t
  {
    var m := b * a;
    Distribute(q, b, r, a);
    MulOrder(r, b, a);
    DivModUnique(v, m, q, r * a + t);
  }
}
