/** Powers of two, bitwise conjunction, and big-endian numbers in units of `w` bits. */
module Bits {

  function Pow2(n: nat): (p: nat)
    ensures p > 0
  {
    if n == 0 then 1 else 2 * Pow2(n - 1)
  }

  lemma {:induction false} Pow2Add(m: nat, n: nat)
    ensures Pow2(m + n) == Pow2(m) * Pow2(n)
  {
    if m > 0 {
      Pow2Add(m - 1, n);
      assert Pow2(m + n) == 2 * (Pow2(m - 1) * Pow2(n));
    }
  }

  /** `n & m` on non-negative integers. */
  function And(n: nat, m: nat): nat
    decreases n
  {
    if n == 0 || m == 0 then 0 else (n % 2) * (m % 2) + 2 * And(n / 2, m / 2)
  }

  lemma {:induction false} AndAllOnes(n: nat, k: nat)
    requires n < Pow2(k)
    ensures And(n, Pow2(k) - 1) == n
  {
    if k > 0 && n > 0 {
      AndAllOnes(n / 2, k - 1);
      assert (Pow2(k) - 1) / 2 == Pow2(k - 1) - 1 && (Pow2(k) - 1) % 2 == 1;
    }
  }

  lemma Powers()
    ensures Pow2(8) == 256 && Pow2(16) == 65536 && Pow2(32) == 0x1_0000_0000
  {
    assert Pow2(4) == 16;
    Pow2Add(4, 4);
    Pow2Add(8, 8);
    Pow2Add(16, 16);
  }

  lemma MulLe(a: int, b: int, c: nat)
    requires a <= b
    ensures a * c <= b * c
  {
  }

  lemma Distribute(a: int, b: int, c: int)
    ensures (a + b) * c == a * c + b * c && (a - b) * c == a * c - b * c
  {
  }

  lemma Regroup(a: int, b: int, c: int)
    ensures a * b * c == a * (b * c) && a * b * c == a * c * b
  {
  }

  lemma DivUnique(n: nat, c: nat, q: nat, r: nat)
    requires c > 0 && n == q * c + r && r < c
    ensures n / c == q && n % c == r
  {
    var q', r' := n / c, n % c;
    assert n == q' * c + r';
    if q' < q {
      MulLe(q' + 1, q, c);
      Distribute(q', 1, c);
      assert false;
    }
    if q < q' {
      MulLe(q + 1, q', c);
      Distribute(q, 1, c);
      assert false;
    }
  }

  lemma MulDiv(a: nat, b: nat, c: nat)
    requires b < c
    ensures (a * c + b) / c == a && (a * c + b) % c == b
  {
    DivUnique(a * c + b, c, a, b);
  }

  lemma TwoDigits(a: nat, b: nat, q: nat, r: nat, s: nat, t: nat)
    requires r < a && t < b && q == s * b + t
    ensures q * a + r == s * (b * a) + (t * a + r) && t * a + r < b * a
  {
    Distribute(s * b, t, a);
    Regroup(s, b, a);
    MulLe(t + 1, b, a);
    Distribute(t, 1, a);
  }

  /** Dividing twice is dividing by the product. */
  lemma DivDiv(n: nat, a: nat, b: nat)
    requires a > 0 && b > 0
    ensures a * b > 0 && n / a / b == n / (a * b)
  {
    var q, r := n / a, n % a;
    TwoDigits(a, b, q, r, q / b, q % b);
    Nested(n, a, b, q / b, q % b * a + r);
  }

  lemma Nested(n: nat, a: nat, b: nat, s: nat, r: nat)
    requires a > 0 && b > 0 && n == s * (b * a) + r && r < b * a
    ensures a * b > 0 && n / (a * b) == s
  {
    assert a * b == b * a;
    DivUnique(n, a * b, s, r);
  }

  /** `n` rounded down to a multiple of `step`. */
  function RoundDown(n: nat, step: nat): (r: nat)
    requires step > 0
    ensures r <= n
  {
    MulLe(0, n / step, step);
    n / step * step
  }

  lemma AndOdd(n: nat, m: nat)
    ensures And(n, 2 * m + 1) == n % 2 + 2 * And(n / 2, m)
  {
    assert (2 * m + 1) % 2 == 1 && (2 * m + 1) / 2 == m;
  }

  /** `n & ((1 << k) - 1)` keeps the low `k` bits. */
  lemma {:induction false} LowBits(n: nat, k: nat)
    ensures And(n, Pow2(k) - 1) == n % Pow2(k)
  {
    if k > 0 {
      var p := Pow2(k - 1);
      AndOdd(n, p - 1);
      LowBits(n / 2, k - 1);
      hide And, Pow2;
      LowStep(n, p);
    }
  }

  lemma LowStep(n: nat, p: nat)
    requires p > 0
    ensures n % (2 * p) == n % 2 + 2 * (n / 2 % p)
  {
    var h, q := n / 2, n / 2 / p;
    assert h == q * p + h % p;
    Regroup(q, 2, p);
    Regroup(q, p, 2);
    DivUnique(n, 2 * p, q, n % 2 + 2 * (h % p));
  }

  lemma AndStep(n: nat, m: nat)
    ensures And(n, 2 * m) == 2 * And(n / 2, m)
  {
    assert 2 * m % 2 == 0 && 2 * m / 2 == m;
  }

  /** `((1 << k) - 1) << j` */
  function Mask(k: nat, j: nat): nat
  {
    MulLe(0, Pow2(k) - 1, Pow2(j));
    (Pow2(k) - 1) * Pow2(j)
  }

  /** `n & (((1 << k) - 1) << j)` clears the low `j` of `k + j` bits. */
  lemma {:induction false} AndMask(n: nat, k: nat, j: nat)
    requires n < Pow2(k + j)
    ensures And(n, Mask(k, j)) == n / Pow2(j) * Pow2(j)
  {
    hide *;
    if j == 0 {
      AndAllOnes(n, k);
      NoShift(n, k);
    } else {
      PowSucc(j);
      PowSucc(k + j);
      AndMask(n / 2, k, j - 1);
      MaskSucc(k, j);
      MaskStep(n, Mask(k, j - 1), Pow2(j - 1));
    }
  }

  lemma NoShift(n: nat, k: nat)
    ensures Mask(k, 0) == Pow2(k) - 1 && n / Pow2(0) * Pow2(0) == n
  {
  }

  lemma MaskSucc(k: nat, j: nat)
    requires j > 0
    ensures Mask(k, j) == 2 * Mask(k, j - 1)
  {
    PowSucc(j);
    hide Pow2;
    Double(Pow2(k) - 1, Pow2(j - 1));
  }

  lemma PowSucc(n: nat)
    requires n > 0
    ensures Pow2(n) == 2 * Pow2(n - 1)
  {
  }

  lemma MaskStep(n: nat, m: nat, p: nat)
    requires p > 0 && And(n / 2, m) == n / 2 / p * p
    ensures And(n, 2 * m) == n / (2 * p) * (2 * p)
  {
    hide And;
    AndStep(n, m);
    DivDiv(n, 2, p);
    Double(n / 2 / p, p);
  }

  lemma Double(a: nat, p: nat)
    ensures a * (2 * p) == 2 * (a * p)
  {
  }

  //-------------------------------------------------------
  // Big-endian units
  //-------------------------------------------------------

  ghost predicate InRange(units: seq<nat>, w: nat)
  {
    forall k | 0 <= k < |units| :: units[k] < Pow2(w)
  }

  /** The number whose base-2^w digits are `units`, most significant first. */
  function Value(units: seq<nat>, w: nat): nat
  {
    if units == [] then 0 else Value(units[..|units| - 1], w) * Pow2(w) + units[|units| - 1]
  }

  lemma {:induction false} ValueInjective(a: seq<nat>, b: seq<nat>, w: nat)
    requires |a| == |b| && InRange(a, w) && InRange(b, w) && Value(a, w) == Value(b, w)
    ensures a == b
  {
    if a != [] {
      var n := |a| - 1;
      MulDiv(Value(a[..n], w), a[n], Pow2(w));
      MulDiv(Value(b[..n], w), b[n], Pow2(w));
      ValueInjective(a[..n], b[..n], w);
      assert a == a[..n] + [a[n]] && b == b[..n] + [b[n]];
    }
  }

  lemma {:induction false} ValueBound(units: seq<nat>, w: nat)
    requires InRange(units, w)
    ensures Value(units, w) < Pow2(|units| * w)
  {
    if units != [] {
      var n := |units| - 1;
      ValueBound(units[..n], w);
      Pow2Add(n * w, w);
      Distribute(n, 1, w);
      var v, p := Value(units[..n], w), Pow2(w);
      Distribute(v, 1, p);
      MulLe(v + 1, Pow2(n * w), p);
    }
  }

  /** The `count` digits of `n` in base 2^w, most significant first. */
  function Digits(n: nat, count: nat, w: nat): (r: seq<nat>)
    ensures |r| == count
    decreases count
  {
    if count == 0 then []
    else
      Quotient(n, Pow2(w));
      Digits(n / Pow2(w), count - 1, w) + [n % Pow2(w)]
  }

  lemma Quotient(n: nat, p: nat)
    requires p > 0
    ensures n / p >= 0 && 0 <= n % p < p && n == n / p * p + n % p
  {
    if n / p < 0 { MulLe(n / p, -1, p); }
  }

  /** The digits of a number of units are the units. */
  lemma {:induction false} DigitsOfValue(units: seq<nat>, w: nat)
    requires InRange(units, w)
    ensures Digits(Value(units, w), |units|, w) == units
  {
    if units != [] {
      var n := |units| - 1;
      MulDiv(Value(units[..n], w), units[n], Pow2(w));
      DigitsOfValue(units[..n], w);
    }
  }

  lemma {:induction false} ValueOfDigits(n: nat, count: nat, w: nat)
    requires n < Pow2(count * w)
    ensures Value(Digits(n, count, w), w) == n && InRange(Digits(n, count, w), w)
    decreases count
  {
    hide Pow2, Value, InRange, Digits;
    if count == 0 {
      NoDigits(n, w);
    } else {
      var p := Pow2(w);
      Distribute(count - 1, 1, w);
      Pow2Add((count - 1) * w, w);
      Quotient(n, p);
      QuotientBelow(n, Pow2((count - 1) * w), p);
      ValueOfDigits(n / p, count - 1, w);
      DigitsSnoc(n, count, w);
      SnocInRange(Digits(n / p, count - 1, w), n % p, w);
    }
  }

  lemma NoDigits(n: nat, w: nat)
    requires n < Pow2(0 * w)
    ensures Value(Digits(n, 0, w), w) == n && InRange(Digits(n, 0, w), w)
  {
  }

  lemma DigitsSnoc(n: nat, count: nat, w: nat)
    requires count > 0
    ensures n / Pow2(w) >= 0 && n % Pow2(w) >= 0
    ensures Digits(n, count, w) == Digits(n / Pow2(w), count - 1, w) + [n % Pow2(w)]
  {
    Quotient(n, Pow2(w));
  }

  lemma SnocInRange(high: seq<nat>, d: nat, w: nat)
    requires InRange(high, w) && d < Pow2(w)
    ensures InRange(high + [d], w) && Value(high + [d], w) == Value(high, w) * Pow2(w) + d
  {
    hide Pow2;
    assert (high + [d])[..|high|] == high;
  }

  lemma QuotientBelow(n: nat, a: nat, p: nat)
    requires p > 0 && n < a * p
    ensures n / p < a
  {
    Quotient(n, p);
    if n / p >= a { MulLe(a, n / p, p); }
  }

  /** The bits of unit `i` that a prefix of `bits` bits keeps. */
  function Keep(i: nat, w: nat, bits: nat): (k: nat)
    ensures k <= w
  {
    var d := bits - i * w;
    if d < 0 then 0 else if d > w then w else d
  }

  /** `units` with everything past the first `bits` bits cleared, unit by unit. */
  function Masked(units: seq<nat>, w: nat, bits: nat): (r: seq<nat>)
    ensures |r| == |units|
  {
    seq(|units|, i requires 0 <= i < |units| =>
      var k := Keep(i, w, bits);
      if k == 0 then 0 else And(units[i], Mask(k, w - k)))
  }

  /** Clearing a unit to its first `k` bits is rounding it down to a multiple. */
  lemma MaskedUnit(units: seq<nat>, w: nat, bits: nat, i: nat)
    requires InRange(units, w) && i < |units|
    ensures var step := Pow2(w - Keep(i, w, bits)); Masked(units, w, bits)[i] == units[i] / step * step
  {
    var k := Keep(i, w, bits);
    if k == 0 {
      DivUnique(units[i], Pow2(w), 0, units[i]);
    } else {
      AndMask(units[i], k, w - k);
    }
  }

  lemma MaskedPrefix(units: seq<nat>, w: nat, bits: nat)
    requires units != []
    ensures Masked(units, w, bits)[..|units| - 1] == Masked(units[..|units| - 1], w, bits)
  {
  }

  /** Masking unit by unit is masking the whole address: the number made of the
      masked units is the address rounded down to a multiple of 2^(width - bits). */
  lemma {:induction false} MaskIsRounding(units: seq<nat>, w: nat, bits: nat)
    requires InRange(units, w) && bits <= |units| * w
    ensures var step := Pow2(|units| * w - bits);
            Value(Masked(units, w, bits), w) == Value(units, w) / step * step
  {
    hide *;
    if units == [] {
      NoUnits(w, bits);
    } else {
      var n := |units| - 1;
      Distribute(n, 1, w);
      RangePrefix(units, w);
      if bits >= n * w {
        MaskInLast(units, w, bits);
      } else {
        MaskIsRounding(units[..n], w, bits);
        MaskEarlier(units, w, bits);
      }
    }
  }

  lemma NoUnits(w: nat, bits: nat)
    requires bits <= 0 * w
    ensures Value(Masked([], w, bits), w) == Value([], w) / Pow2(0 * w - bits) * Pow2(0 * w - bits)
  {
  }

  lemma RangePrefix(units: seq<nat>, w: nat)
    requires InRange(units, w) && units != []
    ensures InRange(units[..|units| - 1], w) && units[|units| - 1] < Pow2(w)
  {
  }

  lemma ValueSnoc(units: seq<nat>, w: nat)
    requires units != []
    ensures Value(units, w) == Value(units[..|units| - 1], w) * Pow2(w) + units[|units| - 1]
  {
  }

  lemma MaskedSnoc(units: seq<nat>, w: nat, bits: nat)
    requires InRange(units, w) && units != []
    ensures var n, u := |units| - 1, units[|units| - 1];
            var step := Pow2(w - Keep(n, w, bits));
            Value(Masked(units, w, bits), w) == Value(Masked(units[..n], w, bits), w) * Pow2(w) + u / step * step
  {
    hide Pow2, Value, Masked, Keep, InRange;
    var n := |units| - 1;
    ValueSnoc(Masked(units, w, bits), w);
    MaskedPrefix(units, w, bits);
    MaskedUnit(units, w, bits, n);
  }

  /** The boundary falls in the last unit: every unit before it is kept whole. */
  lemma MaskInLast(units: seq<nat>, w: nat, bits: nat)
    requires InRange(units, w) && units != [] && (|units| - 1) * w <= bits <= |units| * w
    ensures var step := Pow2(|units| * w - bits);
            Value(Masked(units, w, bits), w) == Value(units, w) / step * step
  {
    hide Pow2, Value, Masked, InRange;
    var n, j := |units| - 1, |units| * w - bits;
    RangePrefix(units, w);
    MaskedSnoc(units, w, bits);
    MaskedWhole(units[..n], w, bits);
    ValueSnoc(units, w);
    Distribute(n, 1, w);
    Pow2Add(w - j, j);
    RoundLast(Value(units[..n], w), units[n], Pow2(w - j), Pow2(j));
  }

  /** The boundary falls before the last unit: the last unit is cleared. */
  lemma MaskEarlier(units: seq<nat>, w: nat, bits: nat)
    requires InRange(units, w) && units != [] && bits < (|units| - 1) * w <= |units| * w
    requires var n, step := |units| - 1, Pow2((|units| - 1) * w - bits);
             Value(Masked(units[..n], w, bits), w) == Value(units[..n], w) / step * step
    ensures var step := Pow2(|units| * w - bits);
            Value(Masked(units, w, bits), w) == Value(units, w) / step * step
  {
    hide Pow2, Value, Masked, InRange;
    var n := |units| - 1;
    var j, v, u, p := n * w - bits, Value(units[..n], w), units[n], Pow2(w);
    RangePrefix(units, w);
    MaskedSnoc(units, w, bits);
    ValueSnoc(units, w);
    Distribute(n, 1, w);
    Pow2Add(w, j);
    DivUnique(u, p, 0, u);
    RoundHigh(v, u, p, Pow2(j));
  }

  lemma {:induction false} MaskedWhole(units: seq<nat>, w: nat, bits: nat)
    requires InRange(units, w) && bits >= |units| * w
    ensures Masked(units, w, bits) == units
  {
    forall i | 0 <= i < |units|
      ensures Masked(units, w, bits)[i] == units[i]
    {
      MulLe(i + 1, |units|, w);
      Distribute(i, 1, w);
      MaskedUnit(units, w, bits, i);
      assert Keep(i, w, bits) == w;
      assert units[i] / 1 * 1 == units[i];
    }
  }

  /** Rounding `v * (a * s) + u` to a multiple of `s` rounds only `u`. */
  lemma RoundLast(v: nat, u: nat, a: nat, s: nat)
    requires s > 0
    ensures (v * (a * s) + u) / s * s == v * (a * s) + u / s * s
  {
    var q, r := u / s, u % s;
    assert u == q * s + r;
    Regroup(v, a, s);
    Distribute(v * a, q, s);
    DivUnique(v * (a * s) + u, s, v * a + q, r);
  }

  /** Rounding `v * p + u` with `u < p` to a multiple of `p * s` rounds only `v`. */
  lemma RoundHigh(v: nat, u: nat, p: nat, s: nat)
    requires u < p && s > 0
    ensures p * s > 0 && (v * p + u) / (p * s) * (p * s) == v / s * s * p
  {
    MulDiv(v, u, p);
    DivDiv(v * p + u, p, s);
    Regroup(v / s, s, p);
    assert p * s == s * p;
  }
}
