/** The URL-safe base64 alphabet of section 5 of RFC 4648, without padding, as Go's raw encoding
    reads and writes it. */
module Base64Url {
  import opened Outcomes
  import opened Texts

  type Sextet = d: nat | d < 64

  function Letter(d: Sextet): (b: Byte)
    ensures SextetOf(b) == Some(d) && b != 10 && b != 13
  {
    if d < 26 then 65 + d else if d < 52 then 71 + d else if d < 62 then d - 4 else if d == 62 then 45 else 95
  }

  function SextetOf(b: Byte): Option<Sextet> {
    if 65 <= b <= 90 then Some(b - 65)
    else if 97 <= b <= 122 then Some(b - 71)
    else if 48 <= b <= 57 then Some(b + 4)
    else if b == 45 then Some(62)
    else if b == 95 then Some(63)
    else None
  }

  /** Three bytes become four letters; one or two last bytes become two or three. */
  function Encode(s: Text): Text {
    if s == [] then []
    else if |s| == 1 then [Letter(Top(s[0])), Letter(Upper(s[0], 0))]
    else if |s| == 2 then [Letter(Top(s[0])), Letter(Upper(s[0], s[1])), Letter(Lower(s[1], 0))]
    else [Letter(Top(s[0])), Letter(Upper(s[0], s[1])), Letter(Lower(s[1], s[2])), Letter(Bottom(s[2]))] + Encode(s[3..])
  }

  /** The four sextets of three bytes. */
  function Top(x: Byte): Sextet {
    x / 4
  }

  function Upper(x: Byte, y: Byte): Sextet {
    x % 4 * 16 + y / 16
  }

  function Lower(y: Byte, z: Byte): Sextet {
    y % 16 * 4 + z / 64
  }

  function Bottom(z: Byte): Sextet {
    z % 64
  }

  /** Line breaks are skipped wherever they stand. */
  function WithoutBreaks(s: Text): Text {
    if s == [] then []
    else if s[0] == 10 || s[0] == 13 then WithoutBreaks(s[1..])
    else [s[0]] + WithoutBreaks(s[1..])
  }

  function Sextets(s: Text): Option<seq<Sextet>> {
    if s == [] then Some([])
    else
      var d, rest := SextetOf(s[0]), Sextets(s[1..]);
      if d.None? || rest.None? then None else Some([d.value] + rest.value)
  }

  /** A single last letter carries no byte and is refused; spare low bits of the last one are not
      looked at. */
  function Bytes(ds: seq<Sextet>): Option<Text> {
    if ds == [] then Some([])
    else if |ds| == 1 then None
    else if |ds| == 2 then Some([First(ds[0], ds[1])])
    else if |ds| == 3 then Some([First(ds[0], ds[1]), Second(ds[1], ds[2])])
    else
      var rest := Bytes(ds[4..]);
      if rest.None? then None
      else Some([First(ds[0], ds[1]), Second(ds[1], ds[2]), Third(ds[2], ds[3])] + rest.value)
  }

  function First(a: Sextet, b: Sextet): Byte {
    a * 4 + b / 16
  }

  function Second(b: Sextet, c: Sextet): Byte {
    b % 16 * 16 + c / 4
  }

  function Third(c: Sextet, d: Sextet): Byte {
    c % 4 * 64 + d
  }

  function Decode(s: Text): Option<Text> {
    var ds := Sextets(WithoutBreaks(s));
    if ds.None? then None else Bytes(ds.value)
  }

  ghost function Split(s: Text): seq<Sextet> {
    if s == [] then []
    else if |s| == 1 then [Top(s[0]), Upper(s[0], 0)]
    else if |s| == 2 then [Top(s[0]), Upper(s[0], s[1]), Lower(s[1], 0)]
    else [Top(s[0]), Upper(s[0], s[1]), Lower(s[1], s[2]), Bottom(s[2])] + Split(s[3..])
  }

  ghost function Letters(ds: seq<Sextet>): (t: Text)
    ensures |t| == |ds|
  {
    if ds == [] then [] else [Letter(ds[0])] + Letters(ds[1..])
  }

  lemma {:induction false} LettersConcat(a: seq<Sextet>, b: seq<Sextet>)
    ensures Letters(a + b) == Letters(a) + Letters(b)
  {
    if a == [] {
      assert a + b == b;
    } else {
      LettersConcat(a[1..], b);
      assert (a + b)[1..] == a[1..] + b;
    }
  }

  lemma LettersOne(a: Sextet)
    ensures Letters([a]) == [Letter(a)]
  {
    assert [a][1..] == [];
  }

  lemma LettersTwo(a: Sextet, b: Sextet)
    ensures Letters([a, b]) == [Letter(a), Letter(b)]
  {
    LettersConcat([a], [b]);
    LettersOne(a);
    LettersOne(b);
    assert [a] + [b] == [a, b];
  }

  lemma LettersFour(a: Sextet, b: Sextet, c: Sextet, d: Sextet)
    ensures Letters([a, b, c]) == [Letter(a), Letter(b), Letter(c)]
    ensures Letters([a, b, c, d]) == [Letter(a), Letter(b), Letter(c), Letter(d)]
  {
    LettersTwo(a, b);
    LettersTwo(c, d);
    LettersOne(c);
    LettersConcat([a, b], [c]);
    LettersConcat([a, b], [c, d]);
    assert [a, b] + [c] == [a, b, c] && [a, b] + [c, d] == [a, b, c, d];
  }

  lemma {:induction false} EncodeSpells(s: Text)
    ensures Encode(s) == Letters(Split(s))
  {
    if |s| == 1 {
      LettersTwo(Top(s[0]), Upper(s[0], 0));
    } else if |s| == 2 {
      LettersFour(Top(s[0]), Upper(s[0], s[1]), Lower(s[1], 0), 0);
    } else if |s| >= 3 {
      EncodeSpells(s[3..]);
      var a, b, c, d := Top(s[0]), Upper(s[0], s[1]), Lower(s[1], s[2]), Bottom(s[2]);
      LettersFour(a, b, c, d);
      LettersConcat([a, b, c, d], Split(s[3..]));
    }
  }

  lemma {:induction false} LettersRead(ds: seq<Sextet>)
    ensures WithoutBreaks(Letters(ds)) == Letters(ds)
    ensures Sextets(Letters(ds)) == Some(ds)
  {
    if ds != [] {
      LettersRead(ds[1..]);
      assert Letters(ds)[1..] == Letters(ds[1..]);
      assert [ds[0]] + ds[1..] == ds;
    }
  }

  /** Each byte comes back from the two sextets it was spread over. */
  lemma Joins(x: Byte, y: Byte, z: Byte)
    ensures First(Top(x), Upper(x, y)) == x && Second(Upper(x, y), Lower(y, z)) == y && Third(Lower(y, z), Bottom(z)) == z
  {
  }

  lemma BytesOfQuad(a: Sextet, b: Sextet, c: Sextet, d: Sextet, rest: seq<Sextet>)
    requires Bytes(rest).Some?
    ensures Bytes([a, b, c, d] + rest) == Some([First(a, b), Second(b, c), Third(c, d)] + Bytes(rest).value)
  {
    assert ([a, b, c, d] + rest)[4..] == rest;
  }

  lemma BytesOfTriple(x: Byte, y: Byte, z: Byte, rest: seq<Sextet>)
    requires Bytes(rest).Some?
    ensures Bytes([Top(x), Upper(x, y), Lower(y, z), Bottom(z)] + rest) == Some([x, y, z] + Bytes(rest).value)
    ensures Bytes([Top(x), Upper(x, y), Lower(y, z)]) == Some([x, y]) && Bytes([Top(x), Upper(x, y)]) == Some([x])
  {
    BytesOfQuad(Top(x), Upper(x, y), Lower(y, z), Bottom(z), rest);
    Joins(x, y, z);
  }

  lemma {:induction false} BytesOfSplit(s: Text)
    ensures Bytes(Split(s)) == Some(s)
  {
    if |s| == 1 {
      BytesOfTriple(s[0], 0, 0, []);
      assert s == [s[0]];
    } else if |s| == 2 {
      BytesOfTriple(s[0], s[1], 0, []);
      assert s == [s[0], s[1]];
    } else if |s| >= 3 {
      BytesOfSplit(s[3..]);
      BytesOfTriple(s[0], s[1], s[2], Split(s[3..]));
      assert s == [s[0], s[1], s[2]] + s[3..];
    }
  }

  /** Every byte string survives. */
  lemma RoundTrip(s: Text)
    ensures Decode(Encode(s)) == Some(s)
  {
    EncodeSpells(s);
    LettersRead(Split(s));
    BytesOfSplit(s);
  }
}

/** Why the encoding is that of section 5 of RFC 4648: its letters are the bits of the bytes. */
module Base64Bits {
  import opened Base64Url
  import opened Outcomes
  import opened Texts
  import N = Numerals

  /** Capitals first, then small letters, then digits, then the hyphen and the underscore. */
  lemma Alphabet(d: Sextet)
    ensures Letter(d) == if d < 26 then 'A' as int + d else if d < 52 then 'a' as int + (d - 26)
                         else if d < 62 then '0' as int + (d - 52) else if d == 62 then '-' as int else '_' as int
  {
  }

  /** What one or two last bytes lack to a whole number of sextets, as a factor: four or two zero bits. */
  function Fill(n: nat): nat {
    if n % 3 == 1 then 16 else if n % 3 == 2 then 4 else 1
  }

  /** The letters are the bits of the bytes, six at a time, filled up with zero bits: read as a number
      in base 64, they are the bytes read in base 256, times the filling. */
  lemma {:induction false} SplitIsTheNumber(s: Text)
    ensures N.Value(Split(s), 64) == N.Value(s, 256) * Fill(|s|)
    ensures N.Power(64, |Split(s)|) == N.Power(256, |s|) * Fill(|s|)
  {
    if |s| == 1 {
      OneByte(s[0]);
      assert s == [s[0]];
    } else if |s| == 2 {
      TwoBytes(s[0], s[1]);
      assert s == [s[0], s[1]];
    } else if |s| >= 3 {
      SplitIsTheNumber(s[3..]);
      ThreeBytes(s[0], s[1], s[2]);
      SplitFirst(s);
      FillSame(|s[3..]|);
      assert s == [s[0], s[1], s[2]] + s[3..];
      OneMoreTriple(Quad(s[0], s[1], s[2]), [s[0], s[1], s[2]], Split(s[3..]), s[3..], Fill(|s[3..]|));
    }
  }

  function Quad(x: Byte, y: Byte, z: Byte): seq<Sextet> {
    [Top(x), Upper(x, y), Lower(y, z), Bottom(z)]
  }

  lemma SplitFirst(s: Text)
    requires |s| >= 3
    ensures Split(s) == Quad(s[0], s[1], s[2]) + Split(s[3..])
  {
  }

  lemma FillSame(n: nat)
    ensures Fill(n + 3) == Fill(n)
  {
    assert (n + 3) % 3 == n % 3;
  }

  lemma OneMoreTriple(quad: seq<nat>, triple: seq<nat>, more: seq<nat>, rest: seq<nat>, fill: nat)
    requires |quad| == 4 && |triple| == 3 && N.Value(quad, 64) == N.Value(triple, 256)
    requires N.Value(more, 64) == N.Value(rest, 256) * fill && N.Power(64, |more|) == N.Power(256, |rest|) * fill
    ensures N.Value(quad + more, 64) == N.Value(triple + rest, 256) * fill
    ensures N.Power(64, |quad + more|) == N.Power(256, |triple + rest|) * fill
  {
    PowerStep(|more|, |rest|, fill);
    NumbersJoin(quad, more, 64, N.Value(quad, 64), N.Power(64, |more|), N.Value(more, 64));
    NumbersJoin(triple, rest, 256, N.Value(triple, 256), N.Power(256, |rest|), N.Value(rest, 256));
    NumberStep(N.Value(triple, 256), N.Power(64, |more|), N.Power(256, |rest|), N.Value(rest, 256), fill,
               N.Value(quad + more, 64), N.Value(triple + rest, 256));
  }

  lemma NumbersJoin(a: seq<nat>, b: seq<nat>, base: nat, x: nat, p: nat, y: nat)
    requires x == N.Value(a, base) && p == N.Power(base, |b|) && y == N.Value(b, base)
    ensures N.Value(a + b, base) == N.Mul(x, p) + y
  {
    N.ValueConcat(a, b, base);
  }

  lemma NumberStep(a: nat, q: nat, p: nat, b: nat, fill: nat, v: nat, w: nat)
    requires q == p * fill && v == N.Mul(a, q) + b * fill && w == N.Mul(a, p) + b
    ensures v == w * fill
  {
    calc {
      w * fill;
      (a * p + b) * fill;
      a * p * fill + b * fill;
      a * (p * fill) + b * fill;
    }
  }

  lemma PowerStep(m: nat, r: nat, fill: nat)
    requires N.Power(64, m) == N.Power(256, r) * fill
    ensures N.Power(64, 4 + m) == N.Power(256, 3 + r) * fill
  {
    SmallPowers();
    N.PowerAdds(64, 4, m);
    N.PowerAdds(256, 3, r);
    Regrouped(N.Power(256, r), fill);
  }

  lemma Regrouped(p: nat, fill: nat)
    ensures 16777216 * (p * fill) == 16777216 * p * fill
  {
  }

  lemma DigitsOf(a: nat, b: nat, c: nat, d: nat, base: nat)
    ensures N.Value([a], base) == a && N.Value([a, b], base) == a * base + b
    ensures N.Value([a, b, c], base) == (a * base + b) * base + c
    ensures N.Value([a, b, c, d], base) == ((a * base + b) * base + c) * base + d
  {
    N.ValueOfOne(a, base);
    N.ValueSnoc([a], b, base);
    N.ValueSnoc([a, b], c, base);
    N.ValueSnoc([a, b, c], d, base);
    assert [a] + [b] == [a, b] && [a, b] + [c] == [a, b, c] && [a, b, c] + [d] == [a, b, c, d];
  }

  lemma SmallPowers()
    ensures N.Power(64, 2) == 4096 && N.Power(64, 3) == 262144 && N.Power(64, 4) == 16777216
    ensures N.Power(256, 1) == 256 && N.Power(256, 2) == 65536 && N.Power(256, 3) == 16777216
  {
  }

  lemma OneByte(x: Byte)
    ensures N.Value([Top(x), Upper(x, 0)], 64) == N.Value([x], 256) * 16 && N.Power(64, 2) == N.Power(256, 1) * 16
  {
    DigitsOf(Top(x), Upper(x, 0), 0, 0, 64);
    DigitsOf(x, 0, 0, 0, 256);
    SmallPowers();
  }

  lemma TwoBytes(x: Byte, y: Byte)
    ensures N.Value([Top(x), Upper(x, y), Lower(y, 0)], 64) == N.Value([x, y], 256) * 4 && N.Power(64, 3) == N.Power(256, 2) * 4
  {
    DigitsOf(Top(x), Upper(x, y), Lower(y, 0), 0, 64);
    DigitsOf(x, y, 0, 0, 256);
    SmallPowers();
  }

  lemma ThreeBytes(x: Byte, y: Byte, z: Byte)
    ensures N.Value(Quad(x, y, z), 64) == N.Value([x, y, z], 256) && N.Power(64, 4) == N.Power(256, 3)
  {
    DigitsOf(Top(x), Upper(x, y), Lower(y, z), Bottom(z), 64);
    DigitsOf(x, y, z, 0, 256);
    SmallPowers();
  }

  lemma {:induction false} LettersAt(ds: seq<Sextet>, i: nat)
    requires i < |ds|
    ensures Letters(ds)[i] == Letter(ds[i])
  {
    if i > 0 {
      LettersAt(ds[1..], i - 1);
    }
  }

  /** So the encoding is the standard's: each letter of the alphabet stands for one sextet of it. */
  lemma EncodesTheBits(s: Text) returns (ds: seq<Sextet>)
    ensures |Encode(s)| == |ds| && forall i | 0 <= i < |ds| :: Encode(s)[i] == Letter(ds[i])
    ensures N.Value(ds, 64) == N.Value(s, 256) * if |s| % 3 == 1 then 16 else if |s| % 3 == 2 then 4 else 1
    ensures |ds| == |s| / 3 * 4 + (if |s| % 3 == 0 then 0 else |s| % 3 + 1)
  {
    ds := Split(s);
    EncodeSpells(s);
    SplitIsTheNumber(s);
    SplitLength(s);
    forall i | 0 <= i < |ds|
      ensures Encode(s)[i] == Letter(ds[i])
    {
      LettersAt(ds, i);
    }
  }

  lemma {:induction false} SplitLength(s: Text)
    ensures |Split(s)| == |s| / 3 * 4 + (if |s| % 3 == 0 then 0 else |s| % 3 + 1)
  {
    if |s| >= 3 {
      SplitLength(s[3..]);
    }
  }

  /** What decodes: letters of the alphabet, line breaks aside, in any number but one more than a
      multiple of four. */
  lemma DecodesIff(s: Text)
    ensures Decode(s).Some? <==> (forall b | b in WithoutBreaks(s) :: SextetOf(b).Some?) && |WithoutBreaks(s)| % 4 != 1
  {
    SextetsIff(WithoutBreaks(s));
    if Sextets(WithoutBreaks(s)).Some? {
      BytesIff(Sextets(WithoutBreaks(s)).value);
    }
  }

  /** Line breaks are as good as absent, and nothing else is. */
  lemma {:induction false} BreaksSkipped(a: Text, br: Byte, b: Text)
    requires br == '\n' as int || br == '\r' as int
    ensures Decode(a + [br] + b) == Decode(a + b)
    ensures WithoutBreaks(a + [br] + b) == WithoutBreaks(a + b)
    ensures '\n' as int !in a && '\r' as int !in a ==> WithoutBreaks(a) == a
  {
    if a == [] {
      assert a + [br] + b == [br] + b && a + b == b;
    } else {
      BreaksSkipped(a[1..], br, b);
      assert (a + [br] + b)[1..] == a[1..] + [br] + b && (a + b)[1..] == a[1..] + b;
    }
  }

  lemma {:induction false} SextetsIff(s: Text)
    ensures Sextets(s).Some? <==> forall b | b in s :: SextetOf(b).Some?
    ensures Sextets(s).Some? ==> |Sextets(s).value| == |s|
  {
    if s != [] {
      SextetsIff(s[1..]);
      assert forall b :: b in s <==> b == s[0] || b in s[1..];
    }
  }

  lemma {:induction false} BytesIff(ds: seq<Sextet>)
    ensures Bytes(ds).Some? <==> |ds| % 4 != 1
  {
    if |ds| >= 4 {
      BytesIff(ds[4..]);
      var a, b, c, d := ds[0], ds[1], ds[2], ds[3];
      assert ds == [a, b, c, d] + ds[4..];
      QuadIff(a, b, c, d, ds[4..]);
      FourMore(|ds|);
    }
  }

  lemma QuadIff(a: Sextet, b: Sextet, c: Sextet, d: Sextet, rest: seq<Sextet>)
    ensures Bytes([a, b, c, d] + rest).Some? <==> Bytes(rest).Some?
  {
    assert ([a, b, c, d] + rest)[4..] == rest;
  }

  lemma FourMore(n: nat)
    requires n >= 4
    ensures (n - 4) % 4 == n % 4
  {
  }

  /** A byte that stands for a sextet is that sextet's letter. */
  lemma SextetIff(b: Byte, d: Sextet)
    ensures SextetOf(b) == Some(d) <==> b == Letter(d)
  {
  }
}

/** Pagination cursors: an opaque text for the last row of a page. */
module Cursors {
  import opened Outcomes
  import opened Amounts
  import opened Texts
  import opened Numerals
  import Base64Url

  const COLON: Byte := 58
  const NUL: Byte := 0

  datatype Invalid = Invalid

  /*********************** Time-ordered lists ***********************/

  function SignedNumeral(n: int): Text {
    if n < 0 then [45] + Numeral(-n, 10) else Numeral(n, 10)
  }

  /** strconv.ParseInt in base ten, 64 bits. */
  function ParseInt64(s: Text): Option<int> {
    var negative := |s| > 0 && s[0] == 45;
    var digits := if |s| > 0 && (s[0] == 45 || s[0] == 43) then s[1..] else s;
    if digits == [] || !AllDigits(digits) then None
    else
      var v := if negative then 0 - Number(digits) else Number(digits);
      if IsInt64(v) then Some(v) else None
  }

  lemma ParseInt64OfNumeral(n: int)
    requires IsInt64(n)
    ensures ParseInt64(SignedNumeral(n)) == Some(n)
    ensures ':' as int !in SignedNumeral(n)
    ensures SignedNumeral(n) == if n < 0 then ['-' as int] + Numeral(0 - n, 10) else Numeral(n, 10)
  {
    var m := if n < 0 then -n else n;
    NumberOfNumeral(m);
    ParseInt64OfDigits(Numeral(m, 10));
  }

  lemma ParseInt64OfDigits(t: Text)
    requires t != [] && AllDigits(t)
    ensures COLON !in t && COLON !in [45] + t
    ensures ParseInt64(t) == ParseInt64(['+' as int] + t) == if Number(t) <= 9223372036854775807 then Some(Number(t)) else None
    ensures ParseInt64(['-' as int] + t) == if Number(t) <= 9223372036854775808 then Some(0 - Number(t)) else None
  {
    assert IsDigit(t[0]);
    assert ([45] + t)[1..] == t == ([43] + t)[1..];
  }

  /** Nothing else is read: a sign or none, then digits and nothing but digits. */
  lemma OnlyDigitsParse(s: Text)
    requires ParseInt64(s).Some?
    ensures exists t :: t != [] && AllDigits(t) && (s == t || s == ['+' as int] + t || s == ['-' as int] + t)
  {
    var digits := if s[0] == 45 || s[0] == 43 then s[1..] else s;
    assert digits != [] && AllDigits(digits);
    assert s[0] == 45 || s[0] == 43 ==> s == [s[0]] + digits;
  }

  /** An instant is nanoseconds since 1970; its microsecond is the one it lies in. */
  function UnixMicro(nanos: int): int {
    nanos / 1000
  }

  function Encode(createdAt: int, id: Text): Text {
    Stamp(UnixMicro(createdAt), id)
  }

  function Stamp(us: int, id: Text): Text {
    Base64Url.Encode(SignedNumeral(us) + [COLON] + id)
  }

  function Decode(s: Text): Result<(int, Text), Invalid> {
    var raw := Base64Url.Decode(s);
    if raw.None? then Err(Invalid)
    else
      var (micros, rest, ok) := Cut(raw.value, COLON);
      if !ok || rest == [] then Err(Invalid)
      else
        var us := ParseInt64(micros);
        if us.None? then Err(Invalid) else Ok((us.value * 1000, rest))
  }

  /** A cursor is the microsecond, a colon and the id; it gives back the id and the instant to the
      microsecond, unless the id is empty: that one cursor is refused. */
  lemma DecodeInvertsEncode(createdAt: int, id: Text)
    requires IsInt64(UnixMicro(createdAt))
    ensures Decode(Encode(createdAt, id)) == if id == [] then Err(Invalid) else Ok((UnixMicro(createdAt) * 1000, id))
    ensures 0 <= createdAt - UnixMicro(createdAt) * 1000 < 1000
    ensures Base64Url.Decode(Encode(createdAt, id)) == Some(SignedNumeral(UnixMicro(createdAt)) + [':' as int] + id)
  {
    StampDecodes(UnixMicro(createdAt), id);
    Base64Url.RoundTrip(SignedNumeral(UnixMicro(createdAt)) + [COLON] + id);
  }

  lemma StampDecodes(us: int, id: Text)
    requires IsInt64(us)
    ensures Decode(Stamp(us, id)) == if id == [] then Err(Invalid) else Ok((us * 1000, id))
  {
    var raw := SignedNumeral(us) + [COLON] + id;
    Base64Url.RoundTrip(raw);
    StampReadsBack(us, id);
    DecodeOf(Base64Url.Encode(raw), raw, us, id);
  }

  lemma DecodeOf(s: Text, raw: Text, us: int, id: Text)
    requires Base64Url.Decode(s) == Some(raw)
    requires var (micros, rest, ok) := Cut(raw, COLON); ok && rest == id && ParseInt64(micros) == Some(us)
    ensures Decode(s) == if id == [] then Err(Invalid) else Ok((us * 1000, id))
  {
  }

  lemma StampReadsBack(us: int, id: Text)
    requires IsInt64(us)
    ensures var (micros, rest, ok) := Cut(SignedNumeral(us) + [COLON] + id, COLON);
            ok && rest == id && ParseInt64(micros) == Some(us)
  {
    ParseInt64OfNumeral(us);
    CutAtFirst(SignedNumeral(us), COLON, id);
  }

  /** So a minted cursor is never mistaken for a request for the first page. */
  lemma StampIsNotEmpty(us: int, id: Text)
    ensures Stamp(us, id) != []
  {
    assert |SignedNumeral(us) + [COLON] + id| >= 1;
  }

  /** A stored time is whole microseconds, so its cursor loses nothing. */
  lemma MicrosecondsSurvive(us: int, id: Text)
    requires IsInt64(us) && id != []
    ensures Encode(us * 1000, id) != [] && Decode(Encode(us * 1000, id)) == Ok((us * 1000, id))
  {
    WholeMicro(us);
    StampIsNotEmpty(us, id);
    StampDecodes(us, id);
  }

  lemma WholeMicro(us: int)
    ensures UnixMicro(us * 1000) == us && us * 1000 % 1000 == 0
  {
  }

  function Clamp(limit: int, def: int, max: int): (r: int)
    ensures 1 <= def && 1 <= max ==> 1 <= r && (r <= max || r == def)
    ensures 1 <= limit <= max ==> r == limit
    ensures limit > 0 && limit > max ==> r == max
    ensures limit <= 0 ==> r == def
  {
    if limit <= 0 then def else if limit > max then max else limit
  }

  /** Trims a probe of one row too many. */
  function Trim<T>(rows: seq<T>, limit: nat): (r: (seq<T>, bool))
    ensures r.0 <= rows && |r.0| == (if |rows| <= limit then |rows| else limit)
    ensures r.1 <==> r.0 != rows
  {
    if |rows| > limit then (rows[..limit], true) else (rows, false)
  }

  /*********************** Text-keyed lists ***********************/

  function Join(parts: seq<Text>): Text {
    if parts == [] then []
    else if |parts| == 1 then parts[0]
    else parts[0] + [NUL] + Join(parts[1..])
  }

  /** strings.Split: there is always at least one part. */
  function SplitAll(s: Text): (parts: seq<Text>)
    ensures |parts| >= 1
    decreases |s|
  {
    var (part, rest, more) := Cut(s, NUL);
    if more then [part] + SplitAll(rest) else [part]
  }

  function EncodeKey(parts: seq<Text>): Text {
    Base64Url.Encode(Join(parts))
  }

  function DecodeKey(s: Text, want: int): Result<seq<Text>, Invalid> {
    var raw := Base64Url.Decode(s);
    if raw.None? then Err(Invalid)
    else
      var parts := SplitAll(raw.value);
      if |parts| != want then Err(Invalid) else Ok(parts)
  }

  predicate NulFree(parts: seq<Text>) {
    forall i | 0 <= i < |parts| :: NUL !in parts[i]
  }

  lemma {:induction false} SplitIsNulFree(s: Text)
    ensures NulFree(SplitAll(s))
    decreases |s|
  {
    var (part, rest, more) := Cut(s, NUL);
    if more {
      SplitIsNulFree(rest);
    }
  }

  lemma {:induction false} SplitOfJoin(parts: seq<Text>)
    requires parts != [] && NulFree(parts)
    ensures SplitAll(Join(parts)) == parts
  {
    var head := parts[0];
    assert NUL !in head;
    if |parts| == 1 {
      assert !Cut(head, NUL).2;
    } else {
      SplitOfJoin(parts[1..]);
      CutAtFirst(head, NUL, Join(parts[1..]));
      assert [head] + parts[1..] == parts;
    }
  }

  /** A key survives exactly when it has a component and none of them holds a NUL. */
  lemma KeyRoundTripIff(parts: seq<Text>)
    ensures DecodeKey(EncodeKey(parts), |parts|) == Ok(parts) <==> parts != [] && forall part | part in parts :: 0 !in part
  {
    Base64Url.RoundTrip(Join(parts));
    SplitIsNulFree(Join(parts));
    if parts != [] && NulFree(parts) {
      SplitOfJoin(parts);
    }
  }

  /** Wrong arity is always refused. */
  lemma WrongArityRefused(parts: seq<Text>, want: int)
    requires parts != [] && NulFree(parts) && want != |parts|
    ensures DecodeKey(EncodeKey(parts), want) == Err(Invalid)
  {
    Base64Url.RoundTrip(Join(parts));
    SplitOfJoin(parts);
  }

  datatype KeyPage = KeyPage(key: seq<Text>, limit: int)

  function ParseKeyPage(cursor: Option<Text>, limit: Option<int>, want: int, def: int, max: int): Result<KeyPage, Invalid> {
    var clamped := Clamp(if limit.Some? then limit.value else 0, def, max);
    if cursor.None? || cursor.value == [] then Ok(KeyPage([], clamped))
    else
      var parts := DecodeKey(cursor.value, want);
      if parts.Err? then Err(Invalid) else Ok(KeyPage(parts.value, clamped))
  }

  lemma {:induction false} JoinIsEmptyIff(parts: seq<Text>)
    ensures Join(parts) == [] <==> parts == [] || parts == [[]]
  {
  }

  /** A minted key cursor continues the list it was minted for, except the single empty component:
      its cursor is the empty text, which asks for the first page. */
  lemma KeyCursorContinuesIff(parts: seq<Text>, limit: Option<int>, def: int, max: int)
    requires parts != [] && NulFree(parts)
    ensures var clamped := Clamp(if limit.Some? then limit.value else 0, def, max);
            ParseKeyPage(Some(EncodeKey(parts)), limit, |parts|, def, max)
            == Ok(KeyPage(if parts == [[]] then [] else parts, clamped))
  {
    KeyRoundTripIff(parts);
    JoinIsEmptyIff(parts);
    Base64Url.RoundTrip(Join(parts));
    assert Base64Url.Decode([]) == Some([]);
  }
}
