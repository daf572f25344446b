/** Go strings are byte strings. */
module Texts {
  type Byte = b: nat | b < 256

  type Text = seq<Byte>

  /** The bytes of an ASCII literal. */
  function Ascii(s: string): (t: Text)
    requires forall i | 0 <= i < |s| :: s[i] as int < 128
    ensures |t| == |s| && forall i | 0 <= i < |s| :: t[i] == s[i] as int
  {
    seq(|s|, i requires 0 <= i < |s| => s[i] as int)
  }

  /** strings.Cut at a one-byte separator. */
  function Cut(s: Text, sep: Byte): (r: (Text, Text, bool))
    ensures sep !in r.0
    ensures s == if r.2 then r.0 + [sep] + r.1 else r.0
    ensures !r.2 ==> r.1 == []
  {
    if s == [] then ([], [], false)
    else if s[0] == sep then ([], s[1..], true)
    else
      var t := Cut(s[1..], sep);
      ([s[0]] + t.0, t.1, t.2)
  }

  /** The cut is at the first separator. */
  lemma {:induction false} CutAtFirst(a: Text, sep: Byte, b: Text)
    requires sep !in a
    ensures Cut(a + [sep] + b, sep) == (a, b, true)
  {
    if a == [] {
      assert a + [sep] + b == [sep] + b;
    } else {
      CutAtFirst(a[1..], sep, b);
      assert (a + [sep] + b)[1..] == a[1..] + [sep] + b && [a[0]] + a[1..] == a;
    }
  }
}

/** Positional numerals, most significant digit first, and how big.Int and strconv spell them. */
module Numerals {
  import opened Texts

  function Power(base: nat, k: nat): nat {
    if k == 0 then 1 else base * Power(base, k - 1)
  }

  function Mul(a: nat, b: nat): nat {
    a * b
  }

  lemma {:induction false} PowerPositive(base: nat, k: nat)
    requires base >= 1
    ensures Power(base, k) >= 1
  {
    if k > 0 {
      PowerPositive(base, k - 1);
    }
  }

  lemma {:induction false} PowerAdds(base: nat, j: nat, k: nat)
    ensures Power(base, j + k) == Power(base, j) * Power(base, k)
  {
    if j > 0 {
      PowerAdds(base, j - 1, k);
      assert Power(base, j + k) == base * Power(base, j - 1 + k);
      assert base * (Power(base, j - 1) * Power(base, k)) == base * Power(base, j - 1) * Power(base, k);
    }
  }

  /** Division by counting, which spares the proofs a quotient of two unknowns. */
  function Upper(n: nat, base: nat): (q: nat)
    requires base >= 2
    ensures n >= base ==> q < n
  {
    if n < base then 0 else 1 + Upper(n - base, base)
  }

  function Last(n: nat, base: nat): (d: nat)
    requires base >= 2
    ensures d < base
  {
    if n < base then n else Last(n - base, base)
  }

  lemma {:induction false} UpperAndLast(n: nat, base: nat)
    requires base >= 2
    ensures n == Mul(Upper(n, base), base) + Last(n, base)
  {
    if n >= base {
      UpperAndLast(n - base, base);
      OneMore(Upper(n - base, base), base);
    }
  }

  lemma OneMore(q: nat, base: nat)
    ensures Mul(1 + q, base) == base + Mul(q, base)
  {
  }

  /** The digits of n without leading zeros; zero itself is one digit. */
  function Digits(n: nat, base: nat): (ds: seq<nat>)
    requires base >= 2
    ensures AreDigits(ds, base) && |ds| >= 1
    decreases n
  {
    if n < base then [n] else Digits(Upper(n, base), base) + [Last(n, base)]
  }

  predicate AreDigits(ds: seq<nat>, base: nat) {
    forall i | 0 <= i < |ds| :: ds[i] < base
  }

  function Value(ds: seq<nat>, base: nat): nat {
    if ds == [] then 0 else Mul(Value(ds[..|ds| - 1], base), base) + ds[|ds| - 1]
  }

  lemma ValueSnoc(ds: seq<nat>, d: nat, base: nat)
    ensures Value(ds + [d], base) == Mul(Value(ds, base), base) + d
  {
    assert (ds + [d])[..|ds + [d]| - 1] == ds;
  }

  lemma {:induction false} ValueOfDigits(n: nat, base: nat)
    requires base >= 2
    ensures Value(Digits(n, base), base) == n
    decreases n
  {
    if n >= base {
      UpperAndLast(n, base);
      ValueOfDigits(Upper(n, base), base);
      ValueSnoc(Digits(Upper(n, base), base), Last(n, base), base);
    } else {
      ValueOfOne(n, base);
    }
  }

  lemma ValueOfOne(d: nat, base: nat)
    ensures Value([d], base) == d
  {
    assert [d][..0] == [];
    assert Mul(0, base) == 0;
  }

  /** How many digits a number needs. */
  lemma {:induction false} Width(n: nat, base: nat, k: nat)
    requires base >= 2 && k >= 1
    ensures |Digits(n, base)| <= k <==> n < Power(base, k)
    decreases n
  {
    PowerPositive(base, k - 1);
    if n < base {
      assert base * Power(base, k - 1) >= base by { Scale(1, Power(base, k - 1), base); }
    } else if k == 1 {
      assert Power(base, 1) == base * Power(base, 0);
    } else {
      Width(Upper(n, base), base, k - 1);
      UpperBelow(n, base, Power(base, k - 1));
    }
  }

  lemma Scale(a: nat, b: nat, c: nat)
    requires a <= b
    ensures c * a <= c * b
  {
  }

  lemma UpperBelow(n: nat, base: nat, p: nat)
    requires base >= 2
    ensures Upper(n, base) < p <==> n < base * p
  {
    UpperAndLast(n, base);
    BelowIff(n, Upper(n, base), Last(n, base), base, p);
  }

  lemma BelowIff(n: nat, q: nat, d: nat, base: nat, p: nat)
    requires n == Mul(q, base) + d && d < base
    ensures q < p <==> n < base * p
  {
    if q < p {
      Scale(q + 1, p, base);
      assert base * (q + 1) == base * q + base;
    } else {
      Scale(p, q, base);
    }
  }

  /** At one width, different digits are different numbers. */
  lemma {:induction false} ValueInjective(a: seq<nat>, b: seq<nat>, base: nat)
    requires |a| == |b| && AreDigits(a, base) && AreDigits(b, base) && Value(a, base) == Value(b, base)
    ensures a == b
  {
    if a != [] {
      var k := |a| - 1;
      LastDigit(Value(a[..k], base), a[k], Value(b[..k], base), b[k], base);
      ValueInjective(a[..k], b[..k], base);
      assert a == a[..k] + [a[k]] && b == b[..k] + [b[k]];
    }
  }

  lemma StepUp(p: nat, q: nat, base: nat)
    requires p < q
    ensures p * base + base <= q * base
  {
    Scale(p + 1, q, base);
  }

  lemma LastDigit(p: nat, c: nat, q: nat, d: nat, base: nat)
    requires c < base && d < base && p * base + c == q * base + d
    ensures p == q && c == d
  {
    if p < q {
      StepUp(p, q, base);
    } else if q < p {
      StepUp(q, p, base);
    }
  }

  /** A number is below the power of its width. */
  lemma {:induction false} ValueBelow(ds: seq<nat>, base: nat)
    requires AreDigits(ds, base)
    ensures Value(ds, base) < Power(base, |ds|)
  {
    if ds != [] {
      var k := |ds| - 1;
      ValueBelow(ds[..k], base);
      Scale(Value(ds[..k], base) + 1, Power(base, k), base);
      assert base * (Value(ds[..k], base) + 1) == base * Value(ds[..k], base) + base;
    }
  }

  lemma {:induction false} ValueConcat(a: seq<nat>, b: seq<nat>, base: nat)
    ensures Value(a + b, base) == Mul(Value(a, base), Power(base, |b|)) + Value(b, base)
  {
    if b == [] {
      assert a + b == a;
    } else {
      var k := |b| - 1;
      ValueConcat(a, b[..k], base);
      assert (a + b)[..|a + b| - 1] == a + b[..k];
      Distribute(Value(a, base), Power(base, k), Value(b[..k], base), base);
    }
  }

  lemma Distribute(a: nat, p: nat, b: nat, base: nat)
    ensures (Mul(a, p) + b) * base == Mul(a, base * p) + b * base
  {
  }

  function Zeros(k: nat): (z: seq<nat>)
    ensures |z| == k && forall i | 0 <= i < k :: z[i] == 0
  {
    seq(k, _ => 0)
  }

  lemma {:induction false} ValueOfZeros(k: nat, base: nat)
    ensures Value(Zeros(k), base) == 0
  {
    if k > 0 {
      ValueOfZeros(k - 1, base);
      assert Zeros(k)[..k - 1] == Zeros(k - 1);
    }
  }

  /** The alphabet shared by every base up to 62: digits, lower case, upper case. */
  function Symbol(d: nat): (b: Byte)
    requires d < 62
    ensures 48 <= b <= 122
  {
    if d < 10 then 48 + d else if d < 36 then 87 + d else 29 + d
  }

  /** Digits first, then small letters, then capitals. */
  lemma Alphabet(d: nat)
    requires d < 62
    ensures Symbol(d) == if d < 10 then '0' as int + d else if d < 36 then 'a' as int + (d - 10) else 'A' as int + (d - 36)
  {
  }

  function Spell(ds: seq<nat>): (t: Text)
    requires AreDigits(ds, 62)
    ensures |t| == |ds| && forall i | 0 <= i < |ds| :: t[i] == Symbol(ds[i])
  {
    seq(|ds|, i requires 0 <= i < |ds| => Symbol(ds[i]))
  }

  lemma SpellInjective(a: seq<nat>, b: seq<nat>)
    requires AreDigits(a, 62) && AreDigits(b, 62) && Spell(a) == Spell(b)
    ensures a == b
  {
    forall i | 0 <= i < |a|
      ensures a[i] == b[i]
    {
      assert Spell(a)[i] == Spell(b)[i];
    }
  }

  /** A number's text. */
  function Numeral(n: nat, base: nat): (t: Text)
    requires 2 <= base <= 62
    ensures |t| == |Digits(n, base)| >= 1
  {
    Spell(Digits(n, base))
  }

  predicate IsDigit(b: Byte) {
    48 <= b <= 57
  }

  predicate AllDigits(s: Text) {
    forall i | 0 <= i < |s| :: IsDigit(s[i])
  }

  /** The digits a decimal text stands for. */
  function Figures(s: Text): (ds: seq<nat>)
    requires AllDigits(s)
    ensures |ds| == |s| && AreDigits(ds, 10) && Spell(ds) == s
  {
    seq(|s|, i requires 0 <= i < |s| => s[i] - 48)
  }

  /** The number a decimal text stands for. */
  function Number(s: Text): nat
    requires AllDigits(s)
  {
    Value(Figures(s), 10)
  }

  lemma NumberOfNumeral(n: nat)
    ensures AllDigits(Numeral(n, 10)) && Number(Numeral(n, 10)) == n
  {
    ValueOfDigits(n, 10);
    assert Figures(Numeral(n, 10)) == Digits(n, 10);
  }
}
