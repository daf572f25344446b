/** Amounts as decimal text: the wire form and its parser. Nine decimal places are nano units. */
module Money {
  import opened Outcomes
  import opened Amounts
  import opened Texts
  import opened Numerals

  const MINUS: Byte := 45
  const DOT: Byte := 46
  const ZERO: Byte := 48
  const NANO_PER_UNIT: int := 1_000_000_000

  datatype NotDecimal = NotDecimal

  /*********************** What a decimal text means ***********************/

  /** The grammar: an optional minus, one or more digits, and optionally a point with one to
      `places` digits. */
  ghost predicate IsAmount(s: Text, negative: bool, whole: Text, fraction: Option<Text>, places: nat) {
    && s == Signed(negative, Joined(whole, fraction))
    && whole != [] && AllDigits(whole)
    && (fraction.Some? ==> 1 <= |fraction.value| <= places && AllDigits(fraction.value))
  }

  function Signed(negative: bool, s: Text): Text {
    if negative then [MINUS] + s else s
  }

  function Joined(whole: Text, fraction: Option<Text>): Text {
    if fraction.Some? then whole + [DOT] + fraction.value else whole
  }

  /** The exact magnitude in units of ten to the minus `places`. */
  ghost function Magnitude(whole: Text, fraction: Option<Text>, places: nat): nat
    requires AllDigits(whole)
    requires fraction.Some? ==> |fraction.value| <= places && AllDigits(fraction.value)
  {
    Mul(Number(whole), Power(10, places))
    + if fraction.Some? then Mul(Number(fraction.value), Power(10, places - |fraction.value|)) else 0
  }

  ghost predicate Denotes(s: Text, v: int, places: nat) {
    exists negative, whole, fraction ::
      && IsAmount(s, negative, whole, fraction, places)
      && v == WithSign(negative, Magnitude(whole, fraction, places))
  }

  function WithSign(negative: bool, m: nat): int {
    if negative then 0 - m else m
  }

  /** The parts the parser takes a text apart into. */
  function Parts(s: Text): (bool, (Text, Text, bool)) {
    var negative := |s| > 0 && s[0] == MINUS;
    (negative, Cut(if negative then s[1..] else s, DOT))
  }

  function FractionOf(cut: (Text, Text, bool)): Option<Text> {
    if cut.2 then Some(cut.1) else None
  }

  /** A text has at most one reading, the one the parser looks at. */
  lemma OneReading(s: Text, negative: bool, whole: Text, fraction: Option<Text>, places: nat)
    requires IsAmount(s, negative, whole, fraction, places)
    ensures Parts(s) == (negative, (whole, if fraction.Some? then fraction.value else [], fraction.Some?))
  {
    assert IsDigit(whole[0]);
    assert DOT !in whole;
    var u := Joined(whole, fraction);
    assert negative ==> s[1..] == u;
    assert u[0] == whole[0];
    if fraction.Some? {
      CutAtFirst(whole, DOT, fraction.value);
    } else {
      assert DOT !in u;
    }
  }

  /** What a text denotes is decided on the parser's parts alone. */
  lemma DenotesIff(s: Text, v: int, places: nat)
    ensures var (negative, cut) := Parts(s);
            var (whole, fraction, hasDot) := cut;
            Denotes(s, v, places) <==>
            && whole != [] && AllDigits(whole)
            && (hasDot ==> 1 <= |fraction| <= places && AllDigits(fraction))
            && v == WithSign(negative, Magnitude(whole, FractionOf(cut), places))
  {
    var (negative, cut) := Parts(s);
    var (whole, fraction, hasDot) := cut;
    if Denotes(s, v, places) {
      var n, w, f :| IsAmount(s, n, w, f, places) && v == WithSign(n, Magnitude(w, f, places));
      OneReading(s, n, w, f, places);
    }
    if whole != [] && AllDigits(whole) && (hasDot ==> 1 <= |fraction| <= places && AllDigits(fraction)) {
      assert negative ==> s == [MINUS] + s[1..];
      assert IsAmount(s, negative, whole, FractionOf(cut), places);
    }
  }

  /** An amount of the grammar, character by character. */
  lemma AmountText(s: Text, negative: bool, whole: Text, fraction: Option<Text>, places: nat)
    requires IsAmount(s, negative, whole, fraction, places)
    ensures s == (if negative then ['-' as int] else []) + whole + (if fraction.Some? then ['.' as int] + fraction.value else [])
    ensures whole != [] && forall b | b in whole || (fraction.Some? && b in fraction.value) :: '0' as int <= b <= '9' as int
    ensures fraction.Some? ==> 1 <= |fraction.value| <= places
  {
    forall b | b in whole
      ensures IsDigit(b)
    {
      var i :| 0 <= i < |whole| && whole[i] == b;
    }
    forall b | fraction.Some? && b in fraction.value
      ensures IsDigit(b)
    {
      var i :| 0 <= i < |fraction.value| && fraction.value[i] == b;
    }
  }

  /*********************** The parser ***********************/

  method IsAllDigits(s: Text) returns (r: bool)
    ensures r == AllDigits(s)
  {
    for i := 0 to |s|
      invariant AllDigits(s[..i])
    {
      if s[i] < 48 || s[i] > 57 {
        return false;
      }
    }
    assert s[..|s|] == s;
    return true;
  }

  lemma NumberSnoc(s: Text, i: nat)
    requires AllDigits(s) && i < |s|
    ensures Number(s[..i + 1]) == Number(s[..i]) * 10 + (s[i] - 48)
  {
    assert Figures(s[..i + 1])[..i] == Figures(s[..i]);
  }

  lemma {:induction false} PrefixBelow(s: Text, i: nat)
    requires AllDigits(s) && i <= |s|
    ensures Number(s[..i]) <= Number(s)
    decreases |s| - i
  {
    if i < |s| {
      NumberSnoc(s, i);
      PrefixBelow(s, i + 1);
    } else {
      assert s[..i] == s;
    }
  }

  /** The digits before the point, or none when they pass the int64 range. */
  method WholeUnits(whole: Text) returns (r: Option<int>)
    requires AllDigits(whole)
    ensures r == if Number(whole) <= INT64_MAX then Some(Number(whole)) else None
  {
    var n := 0;
    for i := 0 to |whole|
      invariant 0 <= n == Number(whole[..i]) <= INT64_MAX
    {
      var d := whole[i] - 48;
      NumberSnoc(whole, i);
      if n > (INT64_MAX - d) / 10 {
        PrefixBelow(whole, i + 1);
        return None;
      }
      n := n * 10 + d;
    }
    assert whole[..|whole|] == whole;
    return Some(n);
  }

  lemma ScaleStep(a: nat, d: nat, p: nat)
    ensures (a * 10 + d) * p == a * (10 * p) + d * p
  {
  }

  /** The digits after the point, in nano units. */
  method FractionNano(fraction: Text) returns (frac: int)
    requires AllDigits(fraction) && |fraction| <= 9
    ensures frac == Mul(Number(fraction), Power(10, 9 - |fraction|))
    ensures 0 <= frac < NANO_PER_UNIT
  {
    var scale := NANO_PER_UNIT;
    frac := 0;
    assert Power(10, 9) == NANO_PER_UNIT;
    for i := 0 to |fraction|
      invariant scale == Power(10, 9 - i)
      invariant frac == Number(fraction[..i]) * scale
    {
      scale := scale / 10;
      NumberSnoc(fraction, i);
      ScaleStep(Number(fraction[..i]), fraction[i] - 48, scale);
      frac := frac + (fraction[i] - 48) * scale;
    }
    assert fraction[..|fraction|] == fraction;
    FractionBelowOne(fraction);
  }

  lemma FractionBelowOne(fraction: Text)
    requires AllDigits(fraction) && |fraction| <= 9
    ensures 0 <= Mul(Number(fraction), Power(10, 9 - |fraction|)) < NANO_PER_UNIT
  {
    var k := |fraction|;
    var p := Power(10, 9 - k);
    ValueBelow(Figures(fraction), 10);
    PowerPositive(10, 9 - k);
    PowerAdds(10, k, 9 - k);
    assert Power(10, 9) == NANO_PER_UNIT;
    StepUp(Number(fraction), Power(10, k), p);
  }

  predicate Readable(whole: Text, fraction: Text, hasDot: bool) {
    whole != [] && AllDigits(whole) && (hasDot ==> 1 <= |fraction| <= 9 && AllDigits(fraction))
  }

  lemma ReadingDecides(s: Text, negative: bool, whole: Text, fraction: Text, hasDot: bool)
    requires Parts(s) == (negative, (whole, fraction, hasDot))
    ensures !Readable(whole, fraction, hasDot) ==> forall v :: !Denotes(s, v, 9)
    ensures Readable(whole, fraction, hasDot) ==>
              var m := Magnitude(whole, if hasDot then Some(fraction) else None, 9);
              forall v :: Denotes(s, v, 9) <==> v == WithSign(negative, m)
  {
    forall v {
      DenotesIff(s, v, 9);
    }
  }

  /** Accepts exactly the texts of the grammar whose magnitude in nano units fits an int64, and
      returns the exact value: nothing is rounded and nothing wraps. */
  method ParseDecimalNano(s: Text) returns (r: Result<int, NotDecimal>)
    ensures forall v :: r == Ok(v) <==> Denotes(s, v, 9) && -INT64_MAX <= v <= INT64_MAX
  {
    var (negative, cut) := Parts(s);
    var (whole, fraction, hasDot) := cut;
    var magnitude := ReadParts(whole, fraction, hasDot);
    r := if magnitude.None? then Err(NotDecimal) else Ok(if negative then -magnitude.value else magnitude.value);
    ReadingIsResult(s, negative, whole, fraction, hasDot, r);
  }

  lemma ReadingIsResult(s: Text, negative: bool, whole: Text, fraction: Text, hasDot: bool, r: Result<int, NotDecimal>)
    requires Parts(s) == (negative, (whole, fraction, hasDot))
    requires if !Readable(whole, fraction, hasDot) then r.Err?
             else
               var m := Magnitude(whole, if hasDot then Some(fraction) else None, 9);
               if m <= INT64_MAX then r == Ok(WithSign(negative, m)) else r.Err?
    ensures forall v :: r == Ok(v) <==> Denotes(s, v, 9) && -INT64_MAX <= v <= INT64_MAX
  {
    ReadingDecides(s, negative, whole, fraction, hasDot);
    if Readable(whole, fraction, hasDot) {
      ResultIsExact(s, 9, negative, Magnitude(whole, if hasDot then Some(fraction) else None, 9), r);
    }
  }

  lemma ResultIsExact(s: Text, places: nat, negative: bool, m: nat, r: Result<int, NotDecimal>)
    requires forall v :: Denotes(s, v, places) <==> v == WithSign(negative, m)
    requires if m <= INT64_MAX then r == Ok(WithSign(negative, m)) else r.Err?
    ensures forall v :: r == Ok(v) <==> Denotes(s, v, places) && -INT64_MAX <= v <= INT64_MAX
  {
  }

  method ReadParts(whole: Text, fraction: Text, hasDot: bool) returns (r: Option<int>)
    ensures if !Readable(whole, fraction, hasDot) then r == None
            else
              var m := Magnitude(whole, if hasDot then Some(fraction) else None, 9);
              r == if m <= INT64_MAX then Some(m) else None
  {
    var wholeOk := IsAllDigits(whole);
    if whole == [] || !wholeOk {
      return None;
    }
    var fractionOk := IsAllDigits(fraction);
    if hasDot && (fraction == [] || |fraction| > 9 || !fractionOk) {
      return None;
    }
    r := MagnitudeNano(whole, fraction, hasDot);
  }

  /** The magnitude, or none when it passes the int64 range. */
  method MagnitudeNano(whole: Text, fraction: Text, hasDot: bool) returns (r: Option<int>)
    requires AllDigits(whole) && (hasDot ==> |fraction| <= 9 && AllDigits(fraction))
    ensures var m := Magnitude(whole, if hasDot then Some(fraction) else None, 9);
            r == if m <= INT64_MAX then Some(m) else None
  {
    assert Power(10, 9) == NANO_PER_UNIT;
    var units := WholeUnits(whole);
    if units.None? {
      return None;
    }
    var n := units.value;
    if n > INT64_MAX / NANO_PER_UNIT {
      return None;
    }
    n := n * NANO_PER_UNIT;
    if hasDot {
      var frac := FractionNano(fraction);
      if n > INT64_MAX - frac {
        return None;
      }
      n := n + frac;
    }
    return Some(n);
  }

  /*********************** The printer ***********************/

  function ZeroText(k: nat): (z: Text)
    ensures |z| == k && forall i | 0 <= i < k :: z[i] == ZERO
  {
    seq(k, _ => ZERO)
  }

  /** strings.TrimRight of zeros. */
  function TrimZeros(s: Text): (r: Text)
    ensures |r| <= |s| && s == r + ZeroText(|s| - |r|)
    ensures r != [] ==> r[|r| - 1] != ZERO
  {
    if s != [] && s[|s| - 1] == ZERO then TrimZeros(s[..|s| - 1]) else s
  }

  function Abs(n: int): nat {
    if n < 0 then -n else n
  }

  /** The digits of n, padded so that at least one stands before the last `scale` ones. */
  function Padded(n: int, scale: nat): (d: Text)
    ensures |d| > scale
  {
    var digits := Numeral(Abs(n), 10);
    if |digits| <= scale then ZeroText(scale - |digits| + 1) + digits else digits
  }

  function FormatScaled(n: int, scale: nat): Text {
    if n == 0 then [ZERO]
    else
      var digits := Padded(n, scale);
      var cut := |digits| - scale;
      var whole, fraction := digits[..cut], TrimZeros(digits[cut..]);
      Signed(n < 0, Joined(whole, if fraction != [] then Some(fraction) else None))
  }

  function FormatNanoExact(nano: int): Text {
    FormatScaled(nano, 9)
  }

  lemma PaddedNumber(n: int, scale: nat)
    ensures AllDigits(Padded(n, scale)) && Number(Padded(n, scale)) == Abs(n)
  {
    var digits := Numeral(Abs(n), 10);
    NumberOfNumeral(Abs(n));
    if |digits| <= scale {
      var k := scale - |digits| + 1;
      NumberOfZeros(k);
      NumberConcat(ZeroText(k), digits);
      assert Mul(0, Power(10, |digits|)) == 0;
    }
  }

  lemma NumberConcat(a: Text, b: Text)
    requires AllDigits(a) && AllDigits(b)
    ensures AllDigits(a + b) && Number(a + b) == Mul(Number(a), Power(10, |b|)) + Number(b)
  {
    assert Figures(a + b) == Figures(a) + Figures(b);
    ValueConcat(Figures(a), Figures(b), 10);
  }

  lemma NumberOfZeros(k: nat)
    ensures AllDigits(ZeroText(k)) && Number(ZeroText(k)) == 0
  {
    ValueOfZeros(k, 10);
    assert Figures(ZeroText(k)) == Zeros(k);
  }

  lemma FilledNumber(f: Text, k: nat)
    requires AllDigits(f)
    ensures AllDigits(f + ZeroText(k)) && Number(f + ZeroText(k)) == Mul(Number(f), Power(10, k))
  {
    NumberOfZeros(k);
    NumberConcat(f, ZeroText(k));
  }

  /** A reading's magnitude is the number its digits spell once the fraction is filled up. */
  lemma MagnitudeIsNumber(whole: Text, fraction: Option<Text>, places: nat)
    requires AllDigits(whole)
    requires fraction.Some? ==> |fraction.value| <= places && AllDigits(fraction.value)
    ensures var f := if fraction.Some? then fraction.value else [];
            var all := whole + (f + ZeroText(places - |f|));
            AllDigits(all) && Number(all) == Magnitude(whole, fraction, places)
  {
    var f := if fraction.Some? then fraction.value else [];
    FilledNumber(f, places - |f|);
    NumberConcat(whole, f + ZeroText(places - |f|));
  }

  /** The parts a nonzero number is printed from. */
  function Printed(n: int, scale: nat): (p: (Text, Text))
    ensures |p.0| == |Padded(n, scale)| - scale && |p.1| <= scale
    ensures Padded(n, scale) == p.0 + (p.1 + ZeroText(scale - |p.1|))
    ensures n != 0 ==> FormatScaled(n, scale) == Signed(n < 0, Joined(p.0, if p.1 != [] then Some(p.1) else None))
  {
    var digits := Padded(n, scale);
    var cut := |digits| - scale;
    (digits[..cut], TrimZeros(digits[cut..]))
  }

  lemma PartsAreDigits(a: Text, b: Text)
    requires AllDigits(a + b)
    ensures AllDigits(a) && AllDigits(b)
  {
    assert forall i | 0 <= i < |a| :: a[i] == (a + b)[i];
    assert forall i | 0 <= i < |b| :: b[i] == (a + b)[|a| + i];
  }

  lemma PrintedReading(n: int, scale: nat)
    requires n != 0
    ensures var (whole, f) := Printed(n, scale);
            IsAmount(FormatScaled(n, scale), n < 0, whole, if f != [] then Some(f) else None, scale)
  {
    var (whole, f) := Printed(n, scale);
    PaddedNumber(n, scale);
    PartsAreDigits(whole, f + ZeroText(scale - |f|));
    PartsAreDigits(f, ZeroText(scale - |f|));
  }

  /** Printing is exact: the text denotes the number, at any scale and either sign. */
  lemma FormatDenotes(n: int, scale: nat)
    ensures Denotes(FormatScaled(n, scale), n, scale)
  {
    if n == 0 {
      NumberOfZeros(1);
      assert ZeroText(1) == [ZERO];
      assert Mul(0, Power(10, scale)) == 0;
      assert IsAmount([ZERO], false, [ZERO], None, scale);
    } else {
      var (whole, f) := Printed(n, scale);
      var fraction := if f != [] then Some(f) else None;
      PrintedReading(n, scale);
      PaddedNumber(n, scale);
      MagnitudeIsNumber(whole, fraction, scale);
      assert n == WithSign(n < 0, Magnitude(whole, fraction, scale));
    }
  }

  /** Trailing zeros cut off cannot be more than there are. */
  lemma {:induction false} TrimIsShortest(f: Text, k: nat)
    ensures |TrimZeros(f + ZeroText(k))| <= |f|
  {
    if k > 0 {
      TrimIsShortest(f, k - 1);
      assert (f + ZeroText(k))[..|f| + k - 1] == f + ZeroText(k - 1);
    }
  }

  /** Printing is minimal: no text with the same meaning is shorter. */
  lemma FormatIsShortest(s: Text, n: int, scale: nat)
    requires Denotes(s, n, scale)
    ensures |FormatScaled(n, scale)| <= |s|
  {
    var negative, whole, fraction :| IsAmount(s, negative, whole, fraction, scale)
                                     && n == WithSign(negative, Magnitude(whole, fraction, scale));
    if n != 0 {
      assert negative == (n < 0);
      ShortestReading(n, scale, whole, fraction);
    }
  }

  lemma ShortestReading(n: int, scale: nat, whole: Text, fraction: Option<Text>)
    requires n != 0 && whole != [] && AllDigits(whole)
    requires fraction.Some? ==> 1 <= |fraction.value| <= scale && AllDigits(fraction.value)
    requires Magnitude(whole, fraction, scale) == Abs(n)
    ensures |FormatScaled(n, scale)| <= |Signed(n < 0, Joined(whole, fraction))|
  {
    MagnitudeIsNumber(whole, fraction, scale);
    FewestDigits(n, scale, whole, if fraction.Some? then fraction.value else []);
    FewerPartsShorter(n, scale, whole, fraction);
  }

  lemma FewerPartsShorter(n: int, scale: nat, whole: Text, fraction: Option<Text>)
    requires n != 0 && (fraction.Some? ==> fraction.value != [])
    requires |Printed(n, scale).0| <= |whole| && |Printed(n, scale).1| <= if fraction.Some? then |fraction.value| else 0
    ensures |FormatScaled(n, scale)| <= |Signed(n < 0, Joined(whole, fraction))|
  {
  }

  lemma FewestDigits(n: int, scale: nat, whole: Text, f: Text)
    requires |f| <= scale && whole != [] && AllDigits(whole + (f + ZeroText(scale - |f|)))
    requires Number(whole + (f + ZeroText(scale - |f|))) == Abs(n)
    ensures |Printed(n, scale).0| <= |whole| && |Printed(n, scale).1| <= |f|
  {
    WidthBound(whole + (f + ZeroText(scale - |f|)));
    FewestPlaces(n, scale, whole, f);
  }

  lemma FewestPlaces(n: int, scale: nat, whole: Text, f: Text)
    requires |f| <= scale && AllDigits(whole + (f + ZeroText(scale - |f|)))
    requires Number(whole + (f + ZeroText(scale - |f|))) == Abs(n)
    ensures |Printed(n, scale).1| <= |f|
  {
    PaddedNumber(n, scale);
    TrimmedTail(Padded(n, scale), |Padded(n, scale)| - scale, whole, f, scale - |f|);
  }

  /** Of two spellings of one number, the trimmed tail of the one is no longer than the untrimmed part
      of the other. */
  lemma TrimmedTail(digits: Text, cut: nat, whole: Text, f: Text, k: nat)
    requires cut <= |digits| && |digits| - cut == |f| + k
    requires AllDigits(digits) && AllDigits(whole + (f + ZeroText(k))) && Number(whole + (f + ZeroText(k))) == Number(digits)
    ensures |TrimZeros(digits[cut..])| <= |f|
  {
    SameTail(whole, f + ZeroText(k), digits[..cut], digits[cut..], digits);
    TrimIsShortest(f, k);
  }

  /** A number's own text is no longer than any other spelling of it. */
  lemma WidthBound(s: Text)
    requires AllDigits(s) && s != []
    ensures |Numeral(Number(s), 10)| <= |s|
  {
    ValueBelow(Figures(s), 10);
    Width(Number(s), 10, |s|);
  }

  /** Two spellings of one number agree on as many last digits as both have. */
  lemma SameTail(a: Text, b: Text, c: Text, d: Text, all: Text)
    requires AllDigits(a + b) && AllDigits(all) && all == c + d && |b| == |d| && Number(a + b) == Number(all)
    ensures b == d
  {
    PartsAreDigits(a, b);
    PartsAreDigits(c, d);
    NumberConcat(a, b);
    NumberConcat(c, d);
    ValueBelow(Figures(b), 10);
    ValueBelow(Figures(d), 10);
    LastDigit(Number(a), Number(b), Number(c), Number(d), Power(10, |b|));
    ValueInjective(Figures(b), Figures(d), 10);
  }

  lemma DenotesOne(s: Text, v: int, w: int, places: nat)
    requires Denotes(s, v, places) && Denotes(s, w, places)
    ensures v == w
  {
    DenotesIff(s, v, places);
    DenotesIff(s, w, places);
  }

  /** A printed number means that number and no other. */
  lemma MeansOnly(n: int, scale: nat)
    ensures forall v :: Denotes(FormatScaled(n, scale), v, scale) <==> v == n
  {
    var s := FormatScaled(n, scale);
    FormatDenotes(n, scale);
    forall v | Denotes(s, v, scale)
      ensures v == n
    {
      DenotesOne(s, v, n, scale);
    }
  }

  /** What the parser makes of a text that means one number. */
  method ParsesTo(s: Text, n: int) returns (r: Result<int, NotDecimal>)
    requires forall v :: Denotes(s, v, 9) <==> v == n
    ensures if -INT64_MAX <= n <= INT64_MAX then r == Ok(n) else r.Err?
  {
    r := ParseDecimalNano(s);
    assert Denotes(s, n, 9) && (r.Ok? ==> Denotes(s, r.value, 9));
  }

  /** The round trip. Every int64 survives it except the least one, whose magnitude the parser
      refuses. */
  method RoundTrip(nano: int) returns (r: Result<int, NotDecimal>)
    requires IsInt64(nano)
    ensures nano != INT64_MIN ==> r == Ok(nano)
    ensures nano == INT64_MIN ==> r.Err?
  {
    var s := FormatNanoExact(nano);
    MeansOnly(nano, 9);
    r := ParsesTo(s, nano);
  }
}
