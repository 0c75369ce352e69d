/** The least radix in which a number is written with ones only: a scan over all radices,
    and a search over digit counts with saturating 64-bit arithmetic that is meant to
    give the same answer. */
module BeautifulNumber {
  import opened Powers

  newtype Long = x: int | -0x8000_0000_0000_0000 <= x < 0x8000_0000_0000_0000

  const MAX: Long := 0x7FFF_FFFF_FFFF_FFFF

  /** The answer, or the exception thrown when there is none. */
  datatype Outcome = Radix(radix: Long) | IllegalState

  /** The number written as `k` ones in radix `r`. */
  function Ones(r: nat, k: nat): nat { if k == 0 then 0 else r * Ones(r, k - 1) + 1 }

  ghost predicate AllOnes(n: int, r: nat) { exists k: nat :: Ones(r, k) == n }

  /** The least radix from `r` on and below `n` in which `n` is all ones. */
  ghost function LeastFrom(n: Long, r: Long): Outcome
    requires r >= 2
    decreases n as int - r as int
  {
    if r >= n then IllegalState
    else if AllOnes(n as int, r as int) then Radix(r)
    else LeastFrom(n, r + 1)
  }

  ghost function Least(n: Long): Outcome { LeastFrom(n, 2) }

  // ---------------------------------------------------------------------------------
  // Repunits

  lemma {:induction false} OnesSum(r: nat, k: nat)
    ensures Ones(r, k + 1) == Ones(r, k) + Pow(r, k)
  {
    if k > 0 {
      OnesSum(r, k - 1);
      assert r * (Ones(r, k - 1) + Pow(r, k - 1)) == r * Ones(r, k - 1) + r * Pow(r, k - 1);
    }
  }

  lemma {:induction false} OnesMonotone(r: nat, q: nat, k: nat)
    requires r <= q
    ensures Ones(r, k) <= Ones(q, k)
  {
    if k > 0 {
      OnesMonotone(r, q, k - 1);
      MulMonotone(r, q, Ones(r, k - 1), Ones(q, k - 1));
    }
  }

  lemma MulMonotone(a: nat, b: nat, c: nat, d: nat)
    requires a <= b && c <= d
    ensures a * c <= b * d
  {
    assert a * c <= a * d;
    assert a * d <= b * d;
  }

  lemma {:induction false} OnesLonger(r: nat, j: nat, k: nat)
    requires r >= 2 && j < k
    ensures Ones(r, j) < Ones(r, k)
  {
    OnesSum(r, k - 1);
    PowPositive(r, k - 1);
    if j < k - 1 { OnesLonger(r, j, k - 1); }
  }

  /** Of two ways to write a number as all ones, the one with more digits has the smaller radix. */
  lemma MoreDigitsSmallerRadix(r: nat, q: nat, j: nat, k: nat)
    requires r >= 2 && q >= 2 && j < k && Ones(r, j) == Ones(q, k)
    ensures q < r
  {
    if q >= r {
      OnesMonotone(r, q, j);
      OnesLonger(q, j, k);
    }
  }

  lemma {:induction false} PowTwo(k: nat)
    ensures Ones(2, k) + 1 == Pow(2, k)
  {
    if k > 0 { PowTwo(k - 1); }
  }

  lemma {:induction false} PowAdd(r: nat, j: nat, k: nat)
    ensures Pow(r, j + k) == Pow(r, j) * Pow(r, k)
  {
    if j > 0 {
      PowAdd(r, j - 1, k);
      var p, q := Pow(r, j - 1), Pow(r, k);
      assert Pow(r, j + k) == r * Pow(r, j - 1 + k) && Pow(r, j) == r * p;
      hide Pow;
      MulAssociative(r, p, q);
    }
  }

  lemma MulAssociative(a: nat, b: nat, c: nat)
    ensures a * (b * c) == (a * b) * c
  {
  }

  lemma TwoPowers()
    ensures Pow(2, 63) == 0x8000_0000_0000_0000 && Pow(2, 64) == 0x1_0000_0000_0000_0000
  {
    assert Pow(2, 4) == 16;
    PowAdd(2, 4, 4);
    PowAdd(2, 8, 8);
    PowAdd(2, 16, 16);
    PowAdd(2, 32, 32);
    assert Pow(2, 64) == 2 * Pow(2, 63);
  }

  /** Sixty-four ones exceed the range in every radix. */
  lemma SixtyFourOnesTooBig(r: nat)
    requires r >= 2
    ensures Ones(r, 64) > MAX as int
  {
    TwoPowers();
    PowTwo(64);
    OnesMonotone(2, r, 64);
  }

  // ---------------------------------------------------------------------------------
  // The scan

  lemma AllOnesStep(n: int, r: nat)
    requires r >= 2 && n > 0
    ensures AllOnes(n, r) <==> n % r == 1 && AllOnes(n / r, r)
  {
    if AllOnes(n, r) {
      var k: nat :| Ones(r, k) == n;
      DivModOnes(n, r, Ones(r, k - 1));
    }
    if n % r == 1 && AllOnes(n / r, r) {
      var k: nat :| Ones(r, k) == n / r;
      assert n == r * (n / r) + n % r;
      assert Ones(r, k + 1) == n;
    }
  }

  lemma DivModOnes(n: int, r: nat, q: nat)
    requires r >= 2 && n == r * q + 1
    ensures n % r == 1 && n / r == q
  {
    var d, m := n / r, n % r;
    assert n == r * d + m;
    assert r * (d - q) == 1 - m;
    if d > q {
      MulMonotone(r, r, 1, d - q);
    }
    if d < q {
      assert r * (q - d) == m - 1;
      MulMonotone(r, r, 1, q - d);
    }
  }

  method IsBeautiful(n: Long, radix: Long) returns (b: bool)
    requires radix >= 2 && n >= 0
    ensures b <==> AllOnes(n as int, radix as int)
  {
    var m := n;
    ZeroIsAllOnes(radix);
    hide AllOnes;
    while m > 0
      invariant m >= 0
      invariant AllOnes(n as int, radix as int) <==> AllOnes(m as int, radix as int)
    {
      LastDigit(m, radix);
      if m % radix != 1 {
        return false;
      }
      m := m / radix;
    }
    return true;
  }

  lemma ZeroIsAllOnes(radix: Long)
    requires radix >= 2
    ensures AllOnes(0, radix as int)
  {
    assert Ones(radix as int, 0) == 0;
  }

  lemma LastDigit(m: Long, radix: Long)
    requires radix >= 2 && m > 0
    ensures 0 <= m / radix < m
    ensures AllOnes(m as int, radix as int) <==> m % radix == 1 && AllOnes((m / radix) as int, radix as int)
  {
    AllOnesStep(m as int, radix as int);
    hide AllOnes;
    DivSmaller(m as int, radix as int);
  }

  lemma DivSmaller(m: int, r: int)
    requires m > 0 && r >= 2
    ensures 0 <= m / r < m
  {
    var d := m / r;
    assert m == r * d + m % r;
    if d >= m { MulMonotone(2, r, d, d); }
  }

  method Beautiful(n: Long) returns (r: Outcome)
    ensures r == Least(n)
  {
    var radix: Long := 2;
    while radix < n
      invariant radix >= 2
      invariant Least(n) == LeastFrom(n, radix)
    {
      var b := IsBeautiful(n, radix);
      if b {
        return Radix(radix);
      }
      radix := radix + 1;
    }
    return IllegalState;
  }

  // ---------------------------------------------------------------------------------
  // The search by digit count

  function Saturated(x: nat): Long { if x <= MAX as int then x as Long else MAX }

  lemma Quotient(c: int, r: int)
    requires c > 0 && r > 0
    ensures MAX as int / c < r <==> c * r > MAX as int
  {
    var q, m := MAX as int / c, MAX as int % c;
    assert MAX as int == c * q + m;
    if q < r {
      MulMonotone(c, c, q + 1, r);
      assert c * (q + 1) == c * q + c;
    } else {
      MulMonotone(c, c, r, q);
    }
  }

  lemma SaturatedPower(r: nat, i: nat)
    requires r >= 2
    ensures Pow(r, i) >= 1
    ensures Saturated(Pow(r, i + 1)) as int ==
              if Saturated(Pow(r, i)) as int * r > MAX as int then MAX as int else Saturated(Pow(r, i)) as int * r
  {
    PowPositive(r, i);
    var p := Pow(r, i);
    if p > MAX as int {
      MulMonotone(1, r, p, p);
      MulMonotone(2, r, MAX as int, MAX as int);
    }
  }

  /** The value of `bits` ones in `radix`, or the largest number if that is out of range. Nothing overflows. */
  method Convert(radix: Long, bits: nat) returns (sum: Long)
    requires radix >= 2
    ensures sum == Saturated(Ones(radix as int, bits))
  {
    var component: Long := 1;
    sum := 0;
    for i := 0 to bits
      invariant component == Saturated(Pow(radix as int, i))
      invariant sum == Saturated(Ones(radix as int, i))
    {
      OnesSum(radix as int, i);
      SaturatedPower(radix as int, i);
      Quotient(component as int, radix as int);
      if MAX - sum < component {
        sum := MAX;
      } else {
        sum := sum + component;
      }
      if MAX / component < radix {
        component := MAX;
      } else {
        assert component as int * radix as int <= MAX as int;
        component := component * radix;
      }
    }
  }

  lemma SaturatedMonotone(r: nat, q: nat, k: nat)
    requires r <= q
    ensures Saturated(Ones(r, k)) <= Saturated(Ones(q, k))
  {
    OnesMonotone(r, q, k);
  }

  ghost predicate NoRadix(n: Long, bits: nat) {
    forall x: nat :: 2 <= x < n as int ==> Saturated(Ones(x, bits)) != n
  }

  /** Binary search for a radix below `n` whose `bits` ones saturate to `n`. */
  method GetRadix(n: Long, bits: nat) returns (r: Long)
    ensures r != -1 ==> 2 <= r < n && Saturated(Ones(r as int, bits)) == n
    ensures r == -1 ==> NoRadix(n, bits)
    ensures n == MAX && bits == 64 ==> r == 0x4000_0000_0000_0000
  {
    var minRadix: Long := 2;
    var maxRadix: Long := n;
    while minRadix < maxRadix
      invariant 2 <= minRadix && maxRadix <= n
      invariant forall x: nat :: 2 <= x < n as int && !(minRadix as int <= x < maxRadix as int) ==> Saturated(Ones(x, bits)) != n
      invariant n == MAX && bits == 64 ==> minRadix == 2 && maxRadix == n
      decreases maxRadix as int - minRadix as int
    {
      var m := minRadix + (maxRadix - minRadix) / 2;
      var t := Convert(m, bits);
      if bits == 64 { SixtyFourOnesTooBig(m as int); }
      if t == n {
        return m;
      } else if t < n {
        forall x: nat | 2 <= x <= m as int ensures Saturated(Ones(x, bits)) != n {
          SaturatedMonotone(x, m as int, bits);
        }
        minRadix := m + 1;
      } else {
        forall x: nat | m as int <= x < n as int ensures Saturated(Ones(x, bits)) != n {
          SaturatedMonotone(m as int, x, bits);
        }
        maxRadix := m;
      }
    }
    return -1;
  }

  /** `n` is not all ones in any radix from `lo` to below `hi`. */
  ghost predicate NoneIn(n: int, lo: int, hi: int) {
    forall x: nat :: lo <= x < hi ==> !AllOnes(n, x)
  }

  lemma {:induction false} LeastIs(n: Long, r: Long, from: Long)
    requires 2 <= from <= r < n && AllOnes(n as int, r as int)
    requires NoneIn(n as int, from as int, r as int)
    ensures LeastFrom(n, from) == Radix(r)
    decreases r as int - from as int
  {
    if from < r {
      assert !AllOnes(n as int, from as int);
      LeastIs(n, r, from + 1);
    }
  }

  lemma OnesStrict(x: nat, r: nat, k: nat)
    requires 2 <= x < r && k >= 2
    ensures Ones(x, k) < Ones(r, k)
  {
    var a, b := Ones(x, k - 1), Ones(r, k - 1);
    OnesMonotone(x, r, k - 1);
    OnesLonger(r, 0, k - 1);
    MulMonotone(x, x, a, b);
    MulMonotone(x + 1, r, b, b);
    assert (x + 1) * b == x * b + b;
  }

  /** A smaller radix needs more digits for the same number. */
  lemma NotSmaller(x: nat, r: nat, k: nat, bits: nat)
    requires 2 <= x < r && bits >= 2 && Ones(x, k) == Ones(r, bits)
    ensures k > bits
  {
    if k < bits {
      MoreDigitsSmallerRadix(x, r, k, bits);
    } else if k == bits {
      OnesStrict(x, r, k);
    }
  }

  /** A radix found for the largest possible digit count is the least one. */
  lemma MostDigitsIsLeast(n: Long, r: Long, bits: nat)
    requires 2 <= r < n && n != MAX && 2 <= bits <= 64
    requires Saturated(Ones(r as int, bits)) == n
    requires forall b: nat :: bits < b <= 64 ==> NoRadix(n, b)
    ensures Least(n) == Radix(r)
  {
    var v: int := n as int;
    assert Ones(r as int, bits) == v;
    forall x: nat | 2 <= x < r as int ensures !AllOnes(v, x) {
      forall k: nat | bits < k <= 64 ensures Ones(x, k) != v {
        assert NoRadix(n, k);
      }
      SixtyFourOnesTooBig(x);
      forall k: nat | k > 64 ensures Ones(x, k) != v {
        OnesLonger(x, 64, k);
      }
      if AllOnes(v, x) {
        var k: nat :| Ones(x, k) == v;
        NotSmaller(x, r as int, k, bits);
      }
    }
    LeastIs(n, r, 2);
  }

  lemma TwoDigits(n: Long)
    requires 3 <= n && n != MAX
    ensures Saturated(Ones(n as int - 1, 2)) == n
  {
    assert Ones(n as int - 1, 1) == 1;
    assert Ones(n as int - 1, 2) == (n as int - 1) * 1 + 1;
  }

  /** The fast search agrees with the scan exactly on the numbers below the largest, where saturation makes the
      first radix it tries look right. */
  method BeautifulLarge(n: Long) returns (r: Outcome)
    ensures r == Least(n) <==> n != MAX
    ensures n == MAX ==> r == Radix(0x4000_0000_0000_0000)
  {
    LargestIsSpecial();
    var bits := 64;
    while bits >= 2
      invariant 1 <= bits <= 64 && (n == MAX ==> bits == 64)
      invariant forall b: nat :: bits < b <= 64 ==> NoRadix(n, b)
    {
      var radix := GetRadix(n, bits);
      if radix != -1 {
        if n != MAX { MostDigitsIsLeast(n, radix, bits); }
        return Radix(radix);
      }
      bits := bits - 1;
    }
    assert NoRadix(n, 2);
    if n >= 3 {
      TwoDigits(n);
      assert false;
    }
    return IllegalState;
  }

  /** The largest number is sixty-three ones in radix 2, so there the two programs differ. */
  lemma LargestIsSpecial()
    ensures Least(MAX) == Radix(2)
  {
    TwoPowers();
    PowTwo(63);
    assert AllOnes(MAX as int, 2);
  }

  /** The specification is the least radix, if there is one, and there is one from 3 on. */
  lemma {:induction false} LeastCharacterised(n: Long, from: Long)
    requires from >= 2
    ensures LeastFrom(n, from) == IllegalState ==> NoneIn(n as int, from as int, n as int)
    ensures LeastFrom(n, from).Radix? ==>
              var r := LeastFrom(n, from).radix;
              from <= r < n && AllOnes(n as int, r as int) && NoneIn(n as int, from as int, r as int)
    ensures n >= 3 && from <= n - 1 ==> LeastFrom(n, from).Radix?
    decreases n as int - from as int
  {
    if from < n {
      LeastCharacterised(n, from + 1);
    }
    if n >= 3 {
      var q: nat := n as int - 1;
      assert Ones(q, 1) == 1;
      assert Ones(q, 2) == q * 1 + 1;
      assert AllOnes(n as int, q);
    }
  }
}
