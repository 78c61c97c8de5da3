/** `getStableHash`: the shift, subtract and wrap loop over UTF-16 code units is a base-31 polynomial. */
module StableHash {
  const WRAP := 0x1_0000_0000
  const EXACT := 0x20_0000_0000_0000

  type CodeUnit = c: nat | c < 0x1_0000

  /** `x | 0`: the signed 32-bit integer congruent to `x`. */
  function ToInt32(x: int): (r: int)
    ensures -0x8000_0000 <= r < 0x8000_0000
  {
    var m := x % WRAP;
    if m >= 0x8000_0000 then m - WRAP else m
  }

  /** `x >>> 0` */
  function ToUint32(x: int): (r: nat)
    ensures r < WRAP
  {
    x % WRAP
  }

  /** The base-31 polynomial of the code units, unbounded. */
  function Polynomial(s: seq<CodeUnit>): nat
  {
    if s == [] then 0 else Polynomial(s[..|s| - 1]) * 31 + s[|s| - 1]
  }

  lemma ToInt32Congruent(x: int) returns (q: int)
    ensures ToInt32(x) == x - q * WRAP
  {
    q := x / WRAP + if x % WRAP >= 0x8000_0000 then 1 else 0;
  }

  /** The loop computes the polynomial modulo 2^32; no value on the way leaves the range a double holds exactly. */
  method GetStableHash(s: seq<CodeUnit>) returns (r: nat)
    ensures r == Polynomial(s) % WRAP
  {
    var hash := 0;
    ghost var q := 0;
    for i := 0 to |s|
      invariant -0x8000_0000 <= hash < 0x8000_0000
      invariant hash == Polynomial(s[..i]) - q * WRAP
    {
      assert s[..i + 1][..i] == s[..i];
      ghost var q0 := ToInt32Congruent(32 * hash);
      var shifted := ToInt32(32 * hash);
      var sum := shifted - hash + s[i];
      assert -EXACT < 32 * hash < EXACT && -EXACT < shifted - hash < EXACT && -EXACT < sum < EXACT;
      ghost var q1 := ToInt32Congruent(sum);
      hash := ToInt32(sum);
      q := 31 * q + q0 + q1;
    }
    assert s[..|s|] == s;
    Congruent(hash, Polynomial(s), q);
    r := ToUint32(hash);
  }

  lemma Congruent(a: int, b: int, q: int)
    requires a == b - q * WRAP
    ensures a % WRAP == b % WRAP
  {
  }

  //-------------------------------------------------------
  // Concatenation
  //-------------------------------------------------------

  function Power31(n: nat): (r: nat)
    ensures r > 0
  {
    if n == 0 then 1 else Power31(n - 1) * 31
  }

  function Hash(s: seq<CodeUnit>): nat { Polynomial(s) % WRAP }

  lemma {:induction false} PolynomialConcat(s: seq<CodeUnit>, t: seq<CodeUnit>)
    ensures Polynomial(s + t) == Polynomial(s) * Power31(|t|) + Polynomial(t)
  {
    if t == [] {
      assert s + t == s;
    } else {
      var n := |t| - 1;
      PolynomialConcat(s, t[..n]);
      assert (s + t)[..|s + t| - 1] == s + t[..n] && (s + t)[|s + t| - 1] == t[n];
      Shift31(Polynomial(s), Power31(n), Polynomial(t[..n]), t[n]);
    }
  }

  lemma Shift31(a: nat, p: nat, b: nat, c: nat)
    ensures (a * p + b) * 31 + c == a * (p * 31) + (b * 31 + c)
  {
  }

  lemma ReduceProduct(a: nat, p: nat, b: nat)
    ensures (a * p + b) % WRAP == ((a % WRAP) * p + b % WRAP) % WRAP
  {
    var q := a / WRAP;
    assert a == q * WRAP + a % WRAP;
    Distribute(q, WRAP, a % WRAP, p);
    assert b == b / WRAP * WRAP + b % WRAP;
    Congruent((a % WRAP) * p + b % WRAP, a * p + b, q * p + b / WRAP);
  }

  lemma Distribute(q: int, m: int, r: int, p: int)
    ensures (q * m + r) * p == q * p * m + r * p
  {
  }

  /** hash(s + t) = hash(s) * 31^|t| + hash(t), modulo 2^32. */
  lemma HashConcat(s: seq<CodeUnit>, t: seq<CodeUnit>)
    ensures Hash(s + t) == (Hash(s) * Power31(|t|) + Hash(t)) % WRAP
  {
    PolynomialConcat(s, t);
    ReduceProduct(Polynomial(s), Power31(|t|), Polynomial(t));
  }
}
