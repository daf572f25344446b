/** Option and result types shared by the models of the gateway's components. */
module Outcomes {
  datatype Option<+T> = None | Some(value: T)

  datatype Result<+T, +E> = Ok(value: T) | Err(error: E)
}

/** Exact amounts and the one place where they are rounded.
    An exact rational of the source (a big.Rat) is a `real` here: both are exact. */
module Amounts {
  import opened Outcomes

  const INT64_MAX: int := 0x7fff_ffff_ffff_ffff
  const INT64_MIN: int := -0x8000_0000_0000_0000

  predicate IsInt64(n: int) {
    INT64_MIN <= n <= INT64_MAX
  }

  /** The least integer that is not below r. */
  function Ceil(r: real): (n: int)
    ensures (n - 1) as real < r <= n as real
  {
    -((-r).Floor)
  }

  lemma CeilIsLeast(r: real, n: int)
    ensures Ceil(r) <= n <==> r <= n as real
  {
  }

  /** Division truncating toward zero, as big.Int.QuoRem does it. */
  function QuoRem(num: int, den: int): (qr: (int, int))
    requires den > 0
    ensures num == qr.0 * den + qr.1
    ensures num >= 0 ==> 0 <= qr.1 < den
    ensures num <= 0 ==> -den < qr.1 <= 0
  {
    if num >= 0 then (num / den, num % den) else (-((-num) / den), -((-num) % den))
  }

  /** The rounding of a fraction as the code does it: the truncated quotient, plus one
      for a positive remainder only. */
  function CeilQuotient(num: int, den: int): int
    requires den > 0
  {
    var (q, rem) := QuoRem(num, den);
    if rem > 0 then q + 1 else q
  }

  /** Truncating and correcting for a positive remainder is the ceiling, for either sign. */
  lemma CeilQuotientIsCeil(num: int, den: int)
    requires den > 0
    ensures CeilQuotient(num, den) == Ceil(num as real / den as real)
  {
    var n := CeilQuotient(num, den);
    var q, rem := QuoRem(num, den).0, QuoRem(num, den).1;
    assert (n - 1) * den < num <= n * den by {
      assert n * den == q * den + (if rem > 0 then den else 0);
    }
    QuotientBounds(num, den, n);
  }

  lemma QuotientBounds(num: int, den: int, n: int)
    requires den > 0 && (n - 1) * den < num <= n * den
    ensures (n - 1) as real < num as real / den as real <= n as real
  {
    var r, d := num as real / den as real, den as real;
    assert r * d == num as real;
    assert (n * den) as real == n as real * d;
    assert ((n - 1) * den) as real == (n - 1) as real * d;
    if r > n as real {
      MulStrict(n as real, r, d);
    } else if r <= (n - 1) as real {
      MulMono(r, (n - 1) as real, d);
    }
  }

  /** The product of two exact amounts. */
  function Times(a: real, b: real): real {
    a * b
  }

  lemma MulMono(a: real, b: real, c: real)
    requires a <= b && c >= 0.0
    ensures a * c <= b * c
  {
  }

  lemma MulStrict(a: real, b: real, c: real)
    requires a < b && c > 0.0
    ensures a * c < b * c
  {
  }

  datatype Overflow = Overflow

  /** Rounds up and checks the int64 range. */
  function CeilToInt64(r: real): (res: Result<int, Overflow>)
    ensures res.Ok? <==> -9223372036854775808 <= Ceil(r) <= 9223372036854775807
    ensures res.Ok? ==> (res.value - 1) as real < r <= res.value as real
  {
    if IsInt64(Ceil(r)) then Ok(Ceil(r)) else Err(Overflow)
  }

  lemma CeilMonotone(a: real, b: real)
    requires a <= b
    ensures Ceil(a) <= Ceil(b)
  {
  }
}

/** Sums over a map in which the order of iteration plays no part. */
module MapSums {
  ghost function SumOf<K(!new)>(m: map<K, real>): real
    decreases |m|
  {
    if m == map[] then 0.0
    else
      var k :| k in m;
      m[k] + SumOf(m - {k})
  }

  /** Any key may be taken out first: the sum is one value for every iteration order. */
  lemma {:induction false} SumSplit<K(!new)>(m: map<K, real>, k: K)
    requires k in m
    ensures SumOf(m) == m[k] + SumOf(m - {k})
    decreases |m|
  {
    var k0 :| k0 in m && SumOf(m) == m[k0] + SumOf(m - {k0});
    if k0 != k {
      SumSplit(m - {k0}, k);
      SumSplit(m - {k}, k0);
      assert m - {k0} - {k} == m - {k} - {k0};
    }
  }

  lemma {:induction false} SumInsert<K(!new)>(m: map<K, real>, k: K, v: real)
    requires k !in m
    ensures SumOf(m[k := v]) == v + SumOf(m)
  {
    SumSplit(m[k := v], k);
    assert m[k := v] - {k} == m;
  }

  lemma {:induction false} SumOfZeros<K(!new)>(m: map<K, real>)
    requires forall k | k in m :: m[k] == 0.0
    ensures SumOf(m) == 0.0
    decreases |m|
  {
    if m != map[] {
      var k :| k in m;
      SumSplit(m, k);
      SumOfZeros(m - {k});
    }
  }
}
