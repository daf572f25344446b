/** CRC-32 as section 8 of RFC 1952 defines it. A register is a polynomial over two elements,
    kept as a natural number below two to the 32. */
module Crc32 {
  import opened Texts
  import opened Numerals

  const POLYNOMIAL: nat := 0xEDB8_8320
  const ONES: nat := 0xFFFF_FFFF

  /** Exclusive or, bit by bit. */
  function Xor(a: nat, b: nat): nat
    decreases a + b
  {
    if a == 0 && b == 0 then 0 else 2 * Xor(a / 2, b / 2) + (a + b) % 2
  }

  lemma XorHalves(a: nat, b: nat)
    ensures Xor(a, b) / 2 == Xor(a / 2, b / 2) && Xor(a, b) % 2 == (a + b) % 2
  {
  }

  lemma {:induction false} XorZero(a: nat)
    ensures Xor(a, 0) == a
  {
    if a > 0 {
      XorZero(a / 2);
    }
  }

  lemma {:induction false} XorCommutes(a: nat, b: nat)
    ensures Xor(a, b) == Xor(b, a)
    decreases a + b
  {
    if a != 0 || b != 0 {
      XorCommutes(a / 2, b / 2);
    }
  }

  lemma {:induction false} XorAssociates(a: nat, b: nat, c: nat)
    ensures Xor(Xor(a, b), c) == Xor(a, Xor(b, c))
    decreases a + b + c
  {
    if a != 0 || b != 0 || c != 0 {
      XorAssociates(a / 2, b / 2, c / 2);
      XorHalves(a, b);
      XorHalves(b, c);
      var x, y := Xor(a, b), Xor(b, c);
      XorHalves(x, c);
      XorHalves(a, y);
      ParityAssociates(a, b, c, x, y);
      SameHalves(Xor(x, c), Xor(a, y));
    }
  }

  lemma ParityAssociates(a: nat, b: nat, c: nat, x: nat, y: nat)
    requires x % 2 == (a + b) % 2 && y % 2 == (b + c) % 2
    ensures (x + c) % 2 == (a + y) % 2
  {
  }

  lemma SameHalves(x: nat, y: nat)
    requires x / 2 == y / 2 && x % 2 == y % 2
    ensures x == y
  {
  }

  /** Two numbers cancel exactly when they are equal. */
  lemma {:induction false} XorCancels(a: nat, b: nat)
    ensures Xor(a, b) == 0 <==> a == b
    decreases a + b
  {
    if a != 0 || b != 0 {
      XorCancels(a / 2, b / 2);
    }
  }

  lemma {:induction false} XorFits(a: nat, b: nat, k: nat)
    requires a < Power(2, k) && b < Power(2, k)
    ensures Xor(a, b) < Power(2, k)
    decreases k
  {
    if k > 0 {
      XorFits(a / 2, b / 2, k - 1);
      XorHalves(a, b);
    }
  }

  /** Four terms may be paired either way. */
  lemma XorExchange(a: nat, b: nat, c: nat, d: nat)
    ensures Xor(Xor(a, b), Xor(c, d)) == Xor(Xor(a, c), Xor(b, d))
  {
    XorAssociates(a, b, Xor(c, d));
    XorAssociates(b, c, d);
    XorCommutes(b, c);
    XorAssociates(c, b, d);
    XorAssociates(a, c, Xor(b, d));
  }

  lemma XorWithSame(a: nat, b: nat, c: nat)
    ensures Xor(Xor(a, c), Xor(b, c)) == Xor(a, b)
  {
    XorExchange(a, c, b, c);
    XorCancels(c, c);
    XorZero(Xor(a, b));
  }

  /** One bit: the register moves down, and the polynomial is subtracted when a one falls out. */
  function Shift(c: nat): nat {
    if c % 2 == 1 then Xor(c / 2, POLYNOMIAL) else c / 2
  }

  function Shifts(c: nat, k: nat): nat {
    if k == 0 then c else Shift(Shifts(c, k - 1))
  }

  /** One byte enters the register. */
  function Step(c: nat, b: Byte): nat {
    Shifts(Xor(c, b), 8)
  }

  function Register(s: Text): nat {
    if s == [] then ONES else Step(Register(s[..|s| - 1]), s[|s| - 1])
  }

  function Checksum(s: Text): nat {
    Xor(Register(s), ONES)
  }

  lemma ShiftLinear(a: nat, b: nat)
    ensures Shift(Xor(a, b)) == Xor(Shift(a), Shift(b))
  {
    XorHalves(a, b);
    SubtractLinear(a % 2 == 1, b % 2 == 1, a / 2, b / 2, POLYNOMIAL);
    OddSum(a, b);
  }

  ghost function Subtract(odd: bool, x: nat, p: nat): nat {
    if odd then Xor(x, p) else x
  }

  lemma OddSum(a: nat, b: nat)
    ensures (a + b) % 2 == 1 <==> ((a % 2 == 1) != (b % 2 == 1))
  {
  }

  lemma SubtractLinear(odd: bool, odd': bool, x: nat, y: nat, p: nat)
    ensures Subtract(odd != odd', Xor(x, y), p) == Xor(Subtract(odd, x, p), Subtract(odd', y, p))
  {
    XorWithSame(x, y, p);
    XorAssociates(x, y, p);
    XorCommutes(y, p);
    XorAssociates(x, p, y);
  }

  lemma {:induction false} ShiftsLinear(a: nat, b: nat, k: nat)
    ensures Shifts(Xor(a, b), k) == Xor(Shifts(a, k), Shifts(b, k))
  {
    if k > 0 {
      ShiftsLinear(a, b, k - 1);
      ShiftLinear(Shifts(a, k - 1), Shifts(b, k - 1));
    }
  }

  lemma {:induction false} ShiftsCompose(c: nat, j: nat, k: nat)
    ensures Shifts(Shifts(c, j), k) == Shifts(c, j + k)
  {
    if k > 0 {
      ShiftsCompose(c, j, k - 1);
    }
  }

  predicate Fits(c: nat) {
    c < 0x1_0000_0000
  }

  lemma WordSize()
    ensures Power(2, 32) == 0x1_0000_0000
  {
    assert Power(2, 8) == 256;
    PowerAdds(2, 8, 8);
    PowerAdds(2, 16, 16);
  }

  lemma XorInRange(a: nat, b: nat)
    requires Fits(a) && Fits(b)
    ensures Fits(Xor(a, b))
  {
    WordSize();
    XorFits(a, b, 32);
  }

  /** Nothing but zero shifts to zero: the top bit of the polynomial cannot be cancelled. */
  lemma ShiftKeepsInformation(c: nat)
    requires Fits(c)
    ensures Fits(Shift(c)) && (Shift(c) == 0 <==> c == 0)
  {
    XorInRange(c / 2, POLYNOMIAL);
    XorCancels(c / 2, POLYNOMIAL);
  }

  lemma {:induction false} ShiftsKeepInformation(c: nat, k: nat)
    requires Fits(c)
    ensures Fits(Shifts(c, k)) && (Shifts(c, k) == 0 <==> c == 0)
  {
    if k > 0 {
      ShiftsKeepInformation(c, k - 1);
      ShiftKeepsInformation(Shifts(c, k - 1));
    }
  }

  lemma {:induction false} RegisterFits(s: Text)
    ensures Fits(Register(s))
  {
    if s != [] {
      RegisterFits(s[..|s| - 1]);
      XorInRange(Register(s[..|s| - 1]), s[|s| - 1]);
      ShiftsKeepInformation(Xor(Register(s[..|s| - 1]), s[|s| - 1]), 8);
    }
  }

  /** A byte that sits k places up falls to the bottom after k shifts, untouched. */
  lemma {:induction false} ShiftsDrop(e: nat, k: nat)
    ensures Shifts(e * Power(2, k), k) == e
  {
    if k > 0 {
      ShiftsCompose(e * Power(2, k), 1, k - 1);
      Even(e, Power(2, k - 1));
      assert Shifts(e * Power(2, k), 1) == Shift(Shifts(e * Power(2, k), 0));
      ShiftsDrop(e, k - 1);
    }
  }

  lemma Even(e: nat, p: nat)
    ensures (e * (2 * p)) % 2 == 0 && (e * (2 * p)) / 2 == e * p
  {
    assert e * (2 * p) == 2 * (e * p);
  }

  /** The table-driven form: one look-up per byte instead of eight shifts. */
  lemma TableStep(c: nat, b: Byte)
    ensures Step(c, b) == Xor(Shifts(Xor(c, b) % 256, 8), c / 256)
  {
    var x := Xor(c, b);
    var low, high := x % 256, x / 256;
    assert Power(2, 8) == 256;
    Halves8(c, b);
    Disjoint(low, high, 8);
    ShiftsLinear(low, high * 256, 8);
    ShiftsDrop(high, 8);
  }

  lemma {:induction false} Disjoint(low: nat, high: nat, k: nat)
    requires low < Power(2, k)
    ensures Xor(low, high * Power(2, k)) == low + high * Power(2, k)
  {
    if k == 0 {
      XorCommutes(0, high);
      XorZero(high);
    } else {
      var up := high * Power(2, k);
      Even(high, Power(2, k - 1));
      Disjoint(low / 2, high, k - 1);
      assert up / 2 == high * Power(2, k - 1);
      XorHalves(low, up);
      EvenAdds(low, up, Xor(low, up));
    }
  }

  lemma EvenAdds(low: nat, up: nat, x: nat)
    requires up % 2 == 0 && x / 2 == low / 2 + up / 2 && x % 2 == (low + up) % 2
    ensures x == low + up
  {
  }

  lemma Halves8(c: nat, b: Byte)
    ensures Xor(c, b) / 256 == c / 256
  {
    HalvesDown(c, b, 8);
    assert Power(2, 8) == 256;
  }

  lemma {:induction false} HalvesDown(c: nat, b: nat, k: nat)
    requires b < Power(2, k)
    ensures Xor(c, b) / Power(2, k) == c / Power(2, k)
  {
    if k == 0 {
      XorZero(c);
    } else {
      HalvesDown(c / 2, b / 2, k - 1);
      XorHalves(c, b);
      PowerPositive(2, k - 1);
      HalfFirst(Xor(c, b), Power(2, k - 1));
      HalfFirst(c, Power(2, k - 1));
    }
  }

  lemma HalfFirst(n: nat, p: nat)
    requires p >= 1
    ensures n / (2 * p) == (n / 2) / p
  {
    var h := n / 2;
    var q, r := h / p, h % p;
    assert h == p * q + r;
    assert n == (2 * p) * q + (2 * r + n % 2);
    Unique(n, 2 * p, q, 2 * r + n % 2);
  }

  lemma Unique(n: nat, d: nat, q: nat, r: nat)
    requires n == d * q + r && r < d
    ensures n / d == q
  {
    LastDigit(n / d, n % d, q, r, d);
  }

  /*********************** Differences ***********************/

  /** How far apart two registers are after one byte each. */
  lemma StepDifference(c: nat, x: Byte, d: nat, y: Byte)
    ensures Xor(Step(c, x), Step(d, y)) == Shifts(Xor(Xor(c, d), Xor(x, y)), 8)
  {
    ShiftsLinear(Xor(c, x), Xor(d, y), 8);
    XorExchange(c, x, d, y);
  }

  /** A difference fed in late is the same difference fed in early, one byte further up. */
  lemma FedEarlier(d: nat, e: nat, k: nat)
    ensures Xor(Shifts(d, k), e) == Shifts(Placed(d, e, k), k)
  {
    ShiftsLinear(d, e * Power(2, k), k);
    ShiftsDrop(e, k);
  }

  /** The difference that a run of bytes makes is one polynomial, shifted past all of them. */
  ghost function Burst(a: Text, b: Text): nat
    requires |a| == |b|
  {
    if a == [] then 0
    else
      var k := |a| - 1;
      Placed(Burst(a[..k], b[..k]), Xor(a[k], b[k]), 8 * k)
  }

  ghost function Placed(low: nat, e: nat, k: nat): nat {
    Xor(low, e * Power(2, k))
  }

  lemma {:induction false} BurstDifference(p: Text, a: Text, b: Text)
    requires |a| == |b|
    ensures Xor(Register(p + a), Register(p + b)) == Shifts(Burst(a, b), 8 * |a|)
  {
    if a == [] {
      assert p + a == p && p + b == p;
      XorCancels(Register(p), Register(p));
    } else {
      var k := |a| - 1;
      BurstDifference(p, a[..k], b[..k]);
      assert (p + a)[..|p + a| - 1] == p + a[..k] && (p + b)[..|p + b| - 1] == p + b[..k];
      DifferenceStep(Register(p + a[..k]), a[k], Register(p + b[..k]), b[k], Burst(a[..k], b[..k]), 8 * k);
      assert 8 * k + 8 == 8 * |a|;
    }
  }

  lemma DifferenceStep(c: nat, x: Byte, d: nat, y: Byte, burst: nat, k: nat)
    requires Xor(c, d) == Shifts(burst, k)
    ensures Xor(Step(c, x), Step(d, y)) == Shifts(Placed(burst, Xor(x, y), k), k + 8)
  {
    StepDifference(c, x, d, y);
    DifferenceGrows(burst, Xor(x, y), k, 8);
  }

  lemma DifferenceGrows(burst: nat, e: nat, k: nat, w: nat)
    ensures Shifts(Xor(Shifts(burst, k), e), w) == Shifts(Placed(burst, e, k), k + w)
  {
    FedEarlier(burst, e, k);
    ShiftsCompose(Placed(burst, e, k), k, w);
  }

  /** Within the register's width, a burst vanishes only if nothing changed. */
  lemma {:induction false} BurstIsTheBytes(a: Text, b: Text)
    requires |a| == |b|
    ensures Burst(a, b) < Power(2, 8 * |a|)
    ensures Burst(a, b) == 0 ==> a == b
  {
    if a != [] {
      var k := |a| - 1;
      var e := Xor(a[k], b[k]);
      BurstIsTheBytes(a[..k], b[..k]);
      assert Power(2, 8) == 256;
      XorFits(a[k], b[k], 8);
      Disjoint(Burst(a[..k], b[..k]), e, 8 * k);
      PowerAdds(2, 8, 8 * k);
      PowerPositive(2, 8 * k);
      PlaceBelow(Burst(a[..k], b[..k]), e, Power(2, 8 * k));
      XorCancels(a[k], b[k]);
      assert a == a[..k] + [a[k]] && b == b[..k] + [b[k]];
    }
  }

  lemma PlaceBelow(low: nat, e: nat, p: nat)
    requires low < p && e < 256
    ensures low + e * p < 256 * p
    ensures low + e * p == 0 ==> low == 0 && e == 0
  {
    StepUp(e, 256, p);
    if e > 0 {
      StepUp(0, e, p);
    }
  }

  /** Equal bytes fed to different registers leave them different. */
  lemma {:induction false} DifferencePersists(a: Text, b: Text, t: Text)
    ensures Register(a) != Register(b) ==> Register(a + t) != Register(b + t)
  {
    if t == [] {
      assert a + t == a && b + t == b;
    } else {
      var k := |t| - 1;
      DifferencePersists(a, b, t[..k]);
      assert (a + t)[..|a + t| - 1] == a + t[..k] && (b + t)[..|b + t| - 1] == b + t[..k];
      var c, d := Register(a + t[..k]), Register(b + t[..k]);
      RegisterFits(a + t[..k]);
      RegisterFits(b + t[..k]);
      if c != d {
        StepInjective(c, d, t[k]);
      }
    }
  }

  lemma StepInjective(c: nat, d: nat, b: Byte)
    requires Fits(c) && Fits(d) && c != d
    ensures Step(c, b) != Step(d, b)
  {
    StepDifference(c, b, d, b);
    XorCancels(b, b);
    XorZero(Xor(c, d));
    XorCancels(c, d);
    XorInRange(c, d);
    ShiftsKeepInformation(Xor(c, d), 8);
    XorCancels(Step(c, b), Step(d, b));
  }

  /** Every change confined to four consecutive bytes changes the checksum. */
  lemma BurstDetected(p: Text, a: Text, b: Text, t: Text)
    requires |a| == |b| <= 4 && a != b
    ensures Checksum(p + a + t) != Checksum(p + b + t)
  {
    BurstIsTheBytes(a, b);
    PowerMonotone(8 * |a|);
    BurstDifference(p, a, b);
    ShiftsKeepInformation(Burst(a, b), 8 * |a|);
    XorCancels(Register(p + a), Register(p + b));
    DifferencePersists(p + a, p + b, t);
    XorWithSame(Register(p + a + t), Register(p + b + t), ONES);
    XorCancels(Register(p + a + t), Register(p + b + t));
    XorCancels(Checksum(p + a + t), Checksum(p + b + t));
  }

  lemma PowerMonotone(k: nat)
    requires k <= 32
    ensures Power(2, k) <= 0x1_0000_0000
  {
    WordSize();
    PowerAdds(2, k, 32 - k);
    PowerPositive(2, 32 - k);
    Scale(1, Power(2, 32 - k), Power(2, k));
  }

  /** The standard's generator: x^32 and the powers 26, 23, 22, 16, 12, 11, 10, 8, 7, 5, 4, 2, 1 and 0, the
      power k standing at bit 31 - k; and a register of 32 ones. */
  lemma Generator()
    ensures POLYNOMIAL == Power(2, 31 - 26) + Power(2, 31 - 23) + Power(2, 31 - 22) + Power(2, 31 - 16) + Power(2, 31 - 12) + Power(2, 31 - 11)
                        + Power(2, 31 - 10) + Power(2, 31 - 8) + Power(2, 31 - 7) + Power(2, 31 - 5) + Power(2, 31 - 4) + Power(2, 31 - 2)
                        + Power(2, 31 - 1) + Power(2, 31)
    ensures ONES + 1 == Power(2, 32)
  {
    WordSize();
    assert Power(2, 5) == 32 && Power(2, 8) == 256 && Power(2, 9) == 512 && Power(2, 15) == 32768;
    assert Power(2, 19) == 524288 && Power(2, 20) == 1048576 && Power(2, 21) == 2097152 && Power(2, 23) == 8388608;
    assert Power(2, 24) == 16777216 && Power(2, 26) == 67108864 && Power(2, 27) == 134217728;
    assert Power(2, 29) == 536870912 && Power(2, 30) == 1073741824 && Power(2, 31) == 2147483648;
  }

  /** Nothing, checked, is zero; one more byte is fed through the register. */
  lemma ChecksumUnfolds(s: Text, b: Byte)
    ensures Checksum([]) == 0
    ensures Register([]) == ONES && Register(s + [b]) == Step(Register(s), b)
  {
    XorCancels(ONES, ONES);
    assert (s + [b])[..|s + [b]| - 1] == s;
  }

  lemma ChecksumFits(s: Text)
    ensures Fits(Checksum(s))
  {
    RegisterFits(s);
    XorInRange(Register(s), ONES);
  }
}

/** The outward form of an API key: a prefix, a random body in base 62, six check characters. */
module KeyFormat {
  import opened Outcomes
  import opened Texts
  import opened Numerals
  import Crc32

  const CHECK_LEN: nat := 6
  const MIN_BODY_LEN: nat := 8

  function Prefix(): (p: Text)
    ensures |p| == 10
  {
    Ascii("sk-flb-v1-")
  }

  datatype TooShort = TooShort(length: nat)

  function ZeroPad(s: Text): Text {
    if |s| < CHECK_LEN then Spell(Zeros(CHECK_LEN - |s|)) + s else s
  }

  function Check(body: Text): Text {
    ZeroPad(Numeral(Crc32.Checksum(body), 62))
  }

  /** The key for a string of random bytes; the source draws thirty-two. */
  function New(raw: Text): Result<Text, TooShort> {
    var body := Numeral(Value(raw, 256), 62);
    if |body| < MIN_BODY_LEN then Err(TooShort(|body|)) else Ok(Prefix() + body + Check(body))
  }

  predicate Valid(key: Text) {
    && |key| >= |Prefix()| && key[..|Prefix()|] == Prefix()
    && var rest := key[|Prefix()|..];
       && |rest| >= MIN_BODY_LEN + CHECK_LEN
       && rest[|rest| - CHECK_LEN..] == Check(rest[..|rest| - CHECK_LEN])
  }

  /** The body of a key at least as long as the shortest valid one. */
  function BodyOf(key: Text): Text
    requires |key| >= |Prefix()| + CHECK_LEN
  {
    key[|Prefix()|..|key| - CHECK_LEN]
  }

  /** Six characters are always enough and always used, and they determine the number. */
  lemma CheckDigits(n: nat)
    requires Crc32.Fits(n)
    ensures var ds := Digits(n, 62);
            |ds| <= CHECK_LEN && ZeroPad(Numeral(n, 62)) == Spell(Zeros(CHECK_LEN - |ds|) + ds)
    ensures |ZeroPad(Numeral(n, 62))| == CHECK_LEN
  {
    Width(n, 62, CHECK_LEN);
    assert Power(62, 6) == 56_800_235_584;
    var ds := Digits(n, 62);
    assert Spell(Zeros(CHECK_LEN - |ds|)) + Spell(ds) == Spell(Zeros(CHECK_LEN - |ds|) + ds);
    assert Zeros(0) + ds == ds;
  }

  lemma FixedWidthInjective(m: nat, n: nat)
    requires Crc32.Fits(m) && Crc32.Fits(n) && ZeroPad(Numeral(m, 62)) == ZeroPad(Numeral(n, 62))
    ensures m == n
  {
    SpellInjective(SixDigits(m), SixDigits(n));
  }

  ghost function SixDigits(n: nat): (ds: seq<nat>)
    requires Crc32.Fits(n)
    ensures |ds| == CHECK_LEN && AreDigits(ds, 62) && ZeroPad(Numeral(n, 62)) == Spell(ds) && Value(ds, 62) == n
  {
    CheckDigits(n);
    PaddedValue(n);
    Zeros(CHECK_LEN - |Digits(n, 62)|) + Digits(n, 62)
  }

  lemma PaddedValue(n: nat)
    requires Crc32.Fits(n)
    ensures |Digits(n, 62)| <= CHECK_LEN && Value(Zeros(CHECK_LEN - |Digits(n, 62)|) + Digits(n, 62), 62) == n
  {
    CheckDigits(n);
    var ds := Digits(n, 62);
    ValueConcat(Zeros(CHECK_LEN - |ds|), ds, 62);
    ValueOfZeros(CHECK_LEN - |ds|, 62);
    ValueOfDigits(n, 62);
    assert Mul(0, Power(62, |ds|)) == 0;
  }

  /** The check characters: six digits in base 62 whose number is the checksum. */
  lemma CheckMeans(body: Text) returns (ds: seq<nat>)
    ensures |ds| == 6 && (forall i | 0 <= i < 6 :: ds[i] < 62) && Value(ds, 62) == Crc32.Checksum(body)
    ensures |Check(body)| == 6 && forall i | 0 <= i < 6 :: Check(body)[i] == Symbol(ds[i])
  {
    Crc32.ChecksumFits(body);
    ds := SixDigits(Crc32.Checksum(body));
  }

  lemma CheckLength(body: Text)
    ensures |Check(body)| == CHECK_LEN
  {
    Crc32.ChecksumFits(body);
    CheckDigits(Crc32.Checksum(body));
  }

  /** Every issued key is valid, ends in six check characters, and its body is the random number; only a
      number of fewer than eight digits is refused. */
  lemma NewIsValid(raw: Text)
    ensures New(raw).Ok? <==> Value(raw, 256) >= 3521614606208
    ensures New(raw).Err? ==> New(raw).error.length == |Numeral(Value(raw, 256), 62)| < 8
    ensures New(raw).Ok? ==> New(raw).value == Ascii("sk-flb-v1-") + Numeral(Value(raw, 256), 62) + Check(Numeral(Value(raw, 256), 62))
    ensures New(raw).Ok? ==>
              && Valid(New(raw).value)
              && |New(raw).value| >= |Prefix()| + CHECK_LEN
              && BodyOf(New(raw).value) == Numeral(Value(raw, 256), 62)
  {
    var n := Value(raw, 256);
    Width(n, 62, MIN_BODY_LEN - 1);
    assert Power(62, 7) == 3521614606208;
    if |Numeral(n, 62)| >= MIN_BODY_LEN {
      AssembledIsValid(Numeral(n, 62));
    }
  }

  lemma AssembledIsValid(body: Text)
    requires |body| >= MIN_BODY_LEN
    ensures var key := Prefix() + body + Check(body);
            |key| == |Prefix()| + |body| + CHECK_LEN && Valid(key) && BodyOf(key) == body
  {
    var key := Prefix() + body + Check(body);
    CheckLength(body);
    Ends(key);
    Thirds(key, |Prefix()|, |key| - CHECK_LEN, Prefix(), body, Check(body));
  }

  /** Different random bytes give different keys: nothing of the entropy is lost. */
  lemma NewInjective(raw: Text, raw': Text)
    requires |raw| == |raw'|
    ensures New(raw).Ok? && New(raw) == New(raw') ==> raw == raw'
  {
    NewIsValid(raw);
    NewIsValid(raw');
    if New(raw).Ok? && New(raw) == New(raw') {
      SpellInjective(Digits(Value(raw, 256), 62), Digits(Value(raw', 256), 62));
      ValueOfDigits(Value(raw, 256), 62);
      ValueOfDigits(Value(raw', 256), 62);
      ValueInjective(raw, raw', 256);
    }
  }

  /** Validity is: the prefix, a body of at least eight bytes, and that body's check characters. */
  lemma ValidIff(key: Text)
    ensures Valid(key) <==> |key| >= 24 && key == Ascii("sk-flb-v1-") + key[10..|key| - 6] + Check(key[10..|key| - 6])
  {
    if |key| >= |Prefix()| + MIN_BODY_LEN + CHECK_LEN {
      var lo, hi := |Prefix()|, |key| - CHECK_LEN;
      Ends(key);
      CheckLength(BodyOf(key));
      Thirds(key, lo, hi, Prefix(), BodyOf(key), Check(BodyOf(key)));
    }
  }

  lemma Thirds(s: Text, i: nat, j: nat, a: Text, b: Text, c: Text)
    requires i <= j <= |s| && |a| == i && |b| == j - i && |c| == |s| - j
    ensures s == a + b + c <==> s[..i] == a && s[i..j] == b && s[j..] == c
  {
    assert s == s[..i] + s[i..j] + s[j..];
    assert (a + b + c)[..i] == a && (a + b + c)[i..j] == b && (a + b + c)[j..] == c;
  }

  lemma BodyChangeDetected(p: Text, a: Text, b: Text, t: Text)
    requires |a| == |b| <= 4 && a != b
    ensures Check(p + a + t) != Check(p + b + t)
  {
    Crc32.BurstDetected(p, a, b, t);
    Crc32.ChecksumFits(p + a + t);
    Crc32.ChecksumFits(p + b + t);
    if Check(p + a + t) == Check(p + b + t) {
      FixedWidthInjective(Crc32.Checksum(p + a + t), Crc32.Checksum(p + b + t));
    }
  }

  /** Any change to up to four consecutive bytes of the body makes a valid key invalid. */
  lemma BurstInBodyDetected(key: Text, bad: Text, i: nat, j: nat)
    requires |bad| == |key| && bad != key && 10 <= i <= j <= |key| - CHECK_LEN && j - i <= 4
    requires bad[..i] == key[..i] && bad[j..] == key[j..]
    ensures Valid(key) ==> !Valid(bad)
  {
    var lo, hi := |Prefix()|, |key| - CHECK_LEN;
    if Valid(key) {
      Ends(key);
      Ends(bad);
      BurstChangesCheck(key, bad, i, j, lo, hi);
      assert BodyOf(key) == key[lo..hi] && BodyOf(bad) == bad[lo..hi];
    }
  }

  lemma BurstChangesCheck(s: Text, r: Text, i: nat, j: nat, lo: nat, hi: nat)
    requires |r| == |s| && r != s && lo <= i <= j <= hi <= |s| && j - i <= 4 && r[..i] == s[..i] && r[j..] == s[j..]
    ensures r[hi..] == s[hi..] && Check(r[lo..hi]) != Check(s[lo..hi])
  {
    SameAround(s, r, i, j, lo, hi);
    Thirds(s, i, j, r[..i], r[i..j], r[j..]);
    Thirds(r, i, j, r[..i], r[i..j], r[j..]);
    BodyChangeDetected(s[lo..i], s[i..j], r[i..j], s[j..hi]);
  }

  lemma SameAround(s: Text, r: Text, i: nat, j: nat, lo: nat, hi: nat)
    requires |r| == |s| && lo <= i <= j <= hi <= |s| && r[..i] == s[..i] && r[j..] == s[j..]
    ensures r[..lo] == s[..lo] && r[hi..] == s[hi..]
    ensures r[lo..hi] == s[lo..i] + r[i..j] + s[j..hi] && s[lo..hi] == s[lo..i] + s[i..j] + s[j..hi]
  {
    assert forall k | 0 <= k < i :: r[k] == r[..i][k] == s[..i][k] == s[k];
    assert forall k | j <= k < |s| :: r[k] == r[j..][k - j] == s[j..][k - j] == s[k];
  }

  lemma Ends(key: Text)
    requires |key| >= |Prefix()| + MIN_BODY_LEN + CHECK_LEN
    ensures Valid(key) <==> key[..|Prefix()|] == Prefix() && key[|key| - CHECK_LEN..] == Check(BodyOf(key))
  {
    var rest := key[|Prefix()|..];
    assert rest[..|rest| - CHECK_LEN] == BodyOf(key);
    assert rest[|rest| - CHECK_LEN..] == key[|key| - CHECK_LEN..];
  }

  /** Any change to one byte of a valid key, wherever it is, makes it invalid. */
  lemma OneByteDetected(key: Text, i: nat, b: Byte)
    requires Valid(key) && i < |key| && b != key[i]
    ensures !Valid(key[i := b])
  {
    var bad := key[i := b];
    var lo, hi := |Prefix()|, |key| - CHECK_LEN;
    Ends(key);
    Ends(bad);
    if i < lo {
      assert bad[..lo][i] == b && key[..lo][i] == key[i];
    } else if i < hi {
      assert bad[..i] == key[..i] && bad[i + 1..] == key[i + 1..];
      BurstInBodyDetected(key, bad, i, i + 1);
    } else {
      assert BodyOf(bad) == BodyOf(key);
      assert bad[hi..][i - hi] == b && key[hi..][i - hi] == key[i];
    }
  }
}
