/** UTF-8 byte sequences, by the syntax of section 4 of RFC 3629. */
module Utf8 {
  import opened Texts

  predicate IsTail(b: Byte) {
    0x80 <= b <= 0xBF
  }

  /** A byte that begins a character. */
  predicate IsStart(b: Byte) {
    !IsTail(b)
  }

  /** The length of the well-formed character a text begins with, or zero. */
  function CharLen(s: Text): (k: nat)
    ensures k <= |s| && k <= 4
    ensures forall i | 0 < i < k :: IsTail(s[i])
    ensures k > 0 ==> IsStart(s[0]) && (k == 1 <==> s[0] < 0x80)
  {
    if |s| >= 1 && s[0] <= 0x7F then 1
    else if |s| >= 2 && 0xC2 <= s[0] <= 0xDF && IsTail(s[1]) then 2
    else if |s| >= 3 && IsSecondOfThree(s[0], s[1]) && IsTail(s[2]) then 3
    else if |s| >= 4 && IsSecondOfFour(s[0], s[1]) && IsTail(s[2]) && IsTail(s[3]) then 4
    else 0
  }

  predicate IsSecondOfThree(a: Byte, b: Byte) {
    || (a == 0xE0 && 0xA0 <= b <= 0xBF)
    || (0xE1 <= a <= 0xEC && IsTail(b))
    || (a == 0xED && 0x80 <= b <= 0x9F)
    || (0xEE <= a <= 0xEF && IsTail(b))
  }

  predicate IsSecondOfFour(a: Byte, b: Byte) {
    || (a == 0xF0 && 0x90 <= b <= 0xBF)
    || (0xF1 <= a <= 0xF3 && IsTail(b))
    || (a == 0xF4 && 0x80 <= b <= 0x8F)
  }

  predicate Valid(s: Text) {
    s == [] || (CharLen(s) > 0 && Valid(s[CharLen(s)..]))
  }

  /** A position between characters. */
  predicate Boundary(s: Text, i: nat) {
    i == |s| || (i < |s| && IsStart(s[i]))
  }

  lemma CharLenPrefix(s: Text, i: nat)
    requires 0 < CharLen(s) <= i <= |s|
    ensures CharLen(s[..i]) == CharLen(s)
  {
  }

  /** No boundary lies inside the first character. */
  lemma BoundaryBeyondFirst(s: Text, i: nat)
    requires CharLen(s) > 0 && 0 < i < |s| && Boundary(s, i)
    ensures CharLen(s) <= i && Boundary(s[CharLen(s)..], i - CharLen(s))
  {
  }

  lemma FirstThenValid(s: Text, i: nat)
    requires 0 < CharLen(s) <= i <= |s| && Valid(s[CharLen(s)..][..i - CharLen(s)])
    ensures Valid(s[..i])
  {
    CharLenPrefix(s, i);
    assert s[..i][CharLen(s)..] == s[CharLen(s)..][..i - CharLen(s)];
  }

  lemma {:induction false} PrefixIsValid(s: Text, i: nat)
    requires Valid(s) && i < |s| && Boundary(s, i)
    ensures Valid(s[..i])
    decreases |s|
  {
    if i > 0 {
      BoundaryBeyondFirst(s, i);
      var k := CharLen(s);
      if i - k < |s[k..]| {
        PrefixIsValid(s[k..], i - k);
      }
      FirstThenValid(s, i);
    }
  }

  lemma {:induction false} SuffixIsValid(s: Text, i: nat)
    requires Valid(s) && i < |s| && Boundary(s, i)
    ensures Valid(s[i..])
    decreases |s|
  {
    if i == 0 {
      assert s[0..] == s;
    } else {
      BoundaryBeyondFirst(s, i);
      var k := CharLen(s);
      SuffixIsValid(s[k..], i - k);
      assert s[i..] == s[k..][i - k..];
    }
  }

  /** A valid text splits at every boundary into two valid texts: a character can be found from
      its first byte alone, without reading from the beginning. */
  lemma SplitAtBoundary(s: Text, i: nat)
    requires Valid(s) && i <= |s| && Boundary(s, i)
    ensures Valid(s[..i]) && Valid(s[i..])
  {
    if i == |s| {
      assert s[..i] == s;
    } else {
      PrefixIsValid(s, i);
      SuffixIsValid(s, i);
    }
  }

  /** What ends where a character begins is whole. */
  lemma PrefixAtBoundaryIsValid(s: Text, t: Text)
    requires Valid(s) && t <= s && Boundary(s, |t|)
    ensures Valid(t)
  {
    SplitAtBoundary(s, |t|);
    assert t == s[..|t|];
  }

  /** The first character of a valid text ends at a boundary. */
  lemma NextBoundary(s: Text)
    requires Valid(s) && s != []
    ensures Boundary(s, CharLen(s))
  {
    var k := CharLen(s);
    FirstIsBoundary(s[k..]);
    assert k < |s| ==> s[k..][0] == s[k];
  }

  lemma FirstIsBoundary(s: Text)
    requires Valid(s)
    ensures Boundary(s, 0)
  {
    assert s != [] ==> CharLen(s) > 0;
  }

  /** After a one-byte character there is a boundary. */
  lemma {:induction false} BoundaryAfterAscii(s: Text, i: nat)
    requires Valid(s) && i < |s| && s[i] < 0x80
    ensures Boundary(s, i + 1)
    decreases |s|
  {
    var k := CharLen(s);
    assert i == 0 || i >= k;
    if i >= k {
      BoundaryAfterAscii(s[k..], i - k);
    } else if k < |s| {
      assert CharLen(s[k..]) > 0;
      assert s[k..][0] == s[k];
    }
  }

  /** No four bytes in a row are all tails. */
  lemma {:induction false} StartWithinFour(s: Text, i: nat)
    requires Valid(s) && i + 3 < |s|
    ensures IsStart(s[i]) || IsStart(s[i + 1]) || IsStart(s[i + 2]) || IsStart(s[i + 3])
    decreases |s|
  {
    var k := CharLen(s);
    if i >= k {
      StartWithinFour(s[k..], i - k);
    } else if i > 0 {
      assert i <= k - 1 < i + 3;
      assert CharLen(s[k..]) > 0 && s[k..][0] == s[k];
    }
  }

  /*********************** The characters ***********************/

  /** A Unicode scalar value: a code point that is no surrogate. */
  predicate Scalar(v: nat) {
    v <= 0x10FFFF && !(0xD800 <= v <= 0xDFFF)
  }

  /** The bits of a code point above its last six, and its last six. */
  function High(v: nat): nat {
    v / 64
  }

  function Low(v: nat): nat {
    v % 64
  }

  /** The bytes of a character, by the table of section 3 of RFC 3629. */
  function Encoded(v: nat): (t: Text)
    requires Scalar(v)
    ensures 1 <= |t| <= 4
  {
    if v <= 0x7F then [v]
    else if v <= 0x7FF then [0xC0 + High(v), 0x80 + Low(v)]
    else if v <= 0xFFFF then [0xE0 + High(High(v)), 0x80 + Low(High(v)), 0x80 + Low(v)]
    else [0xF0 + High(High(High(v))), 0x80 + Low(High(High(v))), 0x80 + Low(High(v)), 0x80 + Low(v)]
  }

  /** The bytes of a character are well formed, whatever follows. */
  lemma EncodedIsCharacter(v: nat, rest: Text)
    requires Scalar(v)
    ensures CharLen(Encoded(v) + rest) == |Encoded(v)|
  {
    var s := Encoded(v) + rest;
    if 0x800 <= v <= 0xFFFF {
      SecondOfThree(v);
      assert s[0] == Encoded(v)[0] && s[1] == Encoded(v)[1] && s[2] == Encoded(v)[2];
    } else if v > 0xFFFF {
      SecondOfFour(v);
      assert s[0] == Encoded(v)[0] && s[1] == Encoded(v)[1] && s[2] == Encoded(v)[2] && s[3] == Encoded(v)[3];
    }
  }

  lemma SecondOfThree(v: nat)
    requires Scalar(v) && 0x800 <= v <= 0xFFFF
    ensures IsSecondOfThree(0xE0 + High(High(v)), 0x80 + Low(High(v))) && IsTail(0x80 + Low(v))
  {
    var h, b := High(High(v)), Low(High(v));
    assert h * 64 + b == High(v) && High(v) * 64 <= v < High(v) * 64 + 64;
  }

  lemma SecondOfFour(v: nat)
    requires Scalar(v) && v > 0xFFFF
    ensures IsSecondOfFour(0xF0 + High(High(High(v))), 0x80 + Low(High(High(v)))) && IsTail(0x80 + Low(High(v))) && IsTail(0x80 + Low(v))
  {
    var h, b := High(High(High(v))), Low(High(High(v)));
    assert h * 64 + b == High(High(v)) && High(High(v)) * 64 <= High(v) < High(High(v)) * 64 + 64;
    assert High(v) * 64 <= v < High(v) * 64 + 64;
  }

  /** Six more bits. */
  function Joined(high: nat, tail: Byte): (v: nat)
    requires IsTail(tail)
    ensures High(v) == high && 0x80 + Low(v) == tail
  {
    high * 64 + (tail as int - 0x80)
  }

  /** The character that some well-formed bytes stand for. */
  function Decoded(s: Text): (v: nat)
    requires CharLen(s) > 0
  {
    if CharLen(s) == 1 then s[0]
    else if CharLen(s) == 2 then Joined(s[0] as int - 0xC0, s[1])
    else if CharLen(s) == 3 then Joined(Joined(s[0] as int - 0xE0, s[1]), s[2])
    else Joined(Joined(Joined(s[0] as int - 0xF0, s[1]), s[2]), s[3])
  }

  lemma DecodedIsCharacter(s: Text)
    requires CharLen(s) > 0
    ensures Scalar(Decoded(s)) && Encoded(Decoded(s)) == s[..CharLen(s)]
  {
    if CharLen(s) == 3 {
      ThreeBytesDecode(s[0], s[1], s[2]);
      assert s[..3] == [s[0], s[1], s[2]];
    } else if CharLen(s) == 4 {
      FourBytesDecode(s[0], s[1], s[2], s[3]);
      assert s[..4] == [s[0], s[1], s[2], s[3]];
    }
  }

  lemma ThreeBytesDecode(a: Byte, b: Byte, c: Byte)
    requires IsSecondOfThree(a, b) && IsTail(b) && IsTail(c)
    ensures var v := Joined(Joined(a as int - 0xE0, b), c); Scalar(v) && Encoded(v) == [a, b, c]
  {
  }

  lemma FourBytesDecode(a: Byte, b: Byte, c: Byte, d: Byte)
    requires IsSecondOfFour(a, b) && IsTail(b) && IsTail(c) && IsTail(d)
    ensures var v := Joined(Joined(Joined(a as int - 0xF0, b), c), d); Scalar(v) && Encoded(v) == [a, b, c, d]
  {
  }

  /** A text is valid exactly when it is nothing, or begins with the bytes of a character and goes on
      validly. */
  lemma ValidIff(s: Text)
    ensures Valid(s) <==> s == [] || exists v :: Scalar(v) && Encoded(v) <= s && Valid(s[|Encoded(v)|..])
  {
    if s != [] && CharLen(s) > 0 {
      DecodedIsCharacter(s);
      assert Encoded(Decoded(s)) <= s;
    }
    forall v | Scalar(v) && Encoded(v) <= s
      ensures CharLen(s) == |Encoded(v)|
    {
      EncodedIsCharacter(v, s[|Encoded(v)|..]);
      assert Encoded(v) + s[|Encoded(v)|..] == s;
    }
  }
}

/** White space around a text. */
module Trimming {
  import opened Texts
  import Utf8

  // The UTF-8 forms of the white-space characters, by their length.
  predicate Space1(a: Byte) {
    9 <= a <= 13 || a == 32
  }

  predicate Space2(a: Byte, b: Byte) {
    a == 0xC2 && (b == 0x85 || b == 0xA0)
  }

  predicate Space3(a: Byte, b: Byte, c: Byte) {
    || (a == 0xE1 && b == 0x9A && c == 0x80)
    || (a == 0xE2 && b == 0x80 && (0x80 <= c <= 0x8A || 0xA8 <= c <= 0xA9 || c == 0xAF))
    || (a == 0xE2 && b == 0x81 && c == 0x9F)
    || (a == 0xE3 && b == 0x80 && c == 0x80)
  }

  /** The length of the white-space character that begins at i, or zero. */
  function SpaceAt(s: Text, i: nat): (k: nat)
    requires i <= |s|
    ensures i + k <= |s|
  {
    if i + 1 <= |s| && Space1(s[i]) then 1
    else if i + 2 <= |s| && Space2(s[i], s[i + 1]) then 2
    else if i + 3 <= |s| && Space3(s[i], s[i + 1], s[i + 2]) then 3
    else 0
  }

  /** The length of the white-space character that ends before e, or zero. */
  function SpaceBefore(s: Text, e: nat): (k: nat)
    requires e <= |s|
    ensures k <= e
  {
    if e >= 1 && Space1(s[e - 1]) then 1
    else if e >= 2 && Space2(s[e - 2], s[e - 1]) then 2
    else if e >= 3 && Space3(s[e - 3], s[e - 2], s[e - 1]) then 3
    else 0
  }

  function TrimStart(s: Text, i: nat): (r: nat)
    requires i <= |s|
    ensures i <= r <= |s| && SpaceAt(s, r) == 0
    decreases |s| - i
  {
    if SpaceAt(s, i) > 0 then TrimStart(s, i + SpaceAt(s, i)) else i
  }

  function TrimEnd(s: Text, e: nat): (r: nat)
    requires e <= |s|
    ensures r <= e && SpaceBefore(s, r) == 0
  {
    if SpaceBefore(s, e) > 0 then TrimEnd(s, e - SpaceBefore(s, e)) else e
  }

  function TrimLeft(s: Text): Text {
    s[TrimStart(s, 0)..]
  }

  function TrimRight(s: Text): Text {
    s[..TrimEnd(s, |s|)]
  }

  function TrimSpace(s: Text): Text {
    TrimRight(TrimLeft(s))
  }

  /** Leading white space ends where a character begins. */
  lemma SpaceThenBoundary(s: Text, i: nat)
    requires Utf8.Valid(s) && i < |s| && Utf8.Boundary(s, i) && SpaceAt(s, i) > 0
    ensures Utf8.Boundary(s, i + SpaceAt(s, i))
  {
    Utf8.SuffixIsValid(s, i);
    Utf8.NextBoundary(s[i..]);
    var k := SpaceAt(s, i);
    assert Utf8.CharLen(s[i..]) == k;
    assert i + k < |s| ==> s[i..][k] == s[i + k];
  }

  lemma {:induction false} TrimStartsAtBoundary(s: Text, i: nat)
    requires Utf8.Valid(s) && i <= |s| && Utf8.Boundary(s, i)
    ensures Utf8.Boundary(s, TrimStart(s, i))
    decreases |s| - i
  {
    if SpaceAt(s, i) > 0 {
      SpaceThenBoundary(s, i);
      TrimStartsAtBoundary(s, i + SpaceAt(s, i));
    }
  }

  /** Trailing white space begins where a character begins, in any text. */
  lemma {:induction false} TrimEndsAtBoundary(s: Text, e: nat)
    requires e <= |s| && Utf8.Boundary(s, e)
    ensures Utf8.Boundary(s, TrimEnd(s, e))
  {
    if SpaceBefore(s, e) > 0 {
      TrimEndsAtBoundary(s, e - SpaceBefore(s, e));
    }
  }

  lemma TrimLeftValid(s: Text)
    requires Utf8.Valid(s)
    ensures Utf8.Valid(TrimLeft(s))
  {
    Utf8.FirstIsBoundary(s);
    TrimStartsAtBoundary(s, 0);
    Utf8.SplitAtBoundary(s, TrimStart(s, 0));
  }

  lemma TrimRightValid(s: Text)
    requires Utf8.Valid(s)
    ensures Utf8.Valid(TrimRight(s))
  {
    TrimEndsAtBoundary(s, |s|);
    Utf8.SplitAtBoundary(s, TrimEnd(s, |s|));
  }

  /*********************** What is trimmed ***********************/

  /** One white-space character, by its bytes. */
  predicate White(t: Text) {
    || (|t| == 1 && Space1(t[0])) || (|t| == 2 && Space2(t[0], t[1])) || (|t| == 3 && Space3(t[0], t[1], t[2]))
  }

  /** The white-space characters of Unicode. */
  predicate IsSpace(v: nat) {
    || 0x09 <= v <= 0x0D || v == 0x20 || v == 0x85 || v == 0xA0 || v == 0x1680 || 0x2000 <= v <= 0x200A
    || v == 0x2028 || v == 0x2029 || v == 0x202F || v == 0x205F || v == 0x3000
  }

  /** The byte forms are those characters. */
  lemma WhiteIff(t: Text)
    ensures White(t) <==> exists v :: IsSpace(v) && Utf8.Scalar(v) && Utf8.Encoded(v) == t
  {
    if White(t) {
      assert Utf8.CharLen(t) == |t| && t[..|t|] == t;
      Utf8.DecodedIsCharacter(t);
      assert IsSpace(Utf8.Decoded(t));
    }
    forall v | IsSpace(v)
      ensures White(Utf8.Encoded(v))
    {
      SpaceForms(v);
    }
  }

  lemma SpaceForms(v: nat)
    requires IsSpace(v)
    ensures White(Utf8.Encoded(v))
  {
  }

  /** Several texts one after the other. */
  function Joined(parts: seq<Text>): Text {
    if parts == [] then [] else parts[0] + Joined(parts[1..])
  }

  ghost predicate AllWhite(parts: seq<Text>) {
    forall i | 0 <= i < |parts| :: White(parts[i])
  }

  lemma {:induction false} JoinedLast(parts: seq<Text>, t: Text)
    ensures Joined(parts + [t]) == Joined(parts) + t
  {
    if parts == [] {
      assert parts + [t] == [t] && [t][1..] == [];
    } else {
      JoinedLast(parts[1..], t);
      assert (parts + [t])[1..] == parts[1..] + [t];
    }
  }

  ghost predicate EndsWith(s: Text, t: Text) {
    |t| <= |s| && s[|s| - |t|..] == t
  }

  /** No white-space character at either end. */
  ghost predicate Trimmed(s: Text) {
    forall t | White(t) :: !(t <= s) && !EndsWith(s, t)
  }

  lemma SpaceAtIsWhite(s: Text, i: nat)
    requires i <= |s|
    ensures SpaceAt(s, i) > 0 ==> White(s[i..i + SpaceAt(s, i)])
  {
  }

  lemma SpaceBeforeIsWhite(s: Text, e: nat)
    requires e <= |s|
    ensures SpaceBefore(s, e) > 0 ==> White(s[e - SpaceBefore(s, e)..e])
  {
  }

  lemma WhiteIsSpaceAt(s: Text, i: nat, t: Text)
    requires i <= |s|
    ensures White(t) && t <= s[i..] ==> SpaceAt(s, i) > 0
  {
    if White(t) && t <= s[i..] {
      SameBytes(s, i, t);
    }
  }

  lemma WhiteIsSpaceBefore(s: Text, e: nat, t: Text)
    requires e <= |s|
    ensures White(t) && EndsWith(s[..e], t) ==> SpaceBefore(s, e) > 0
  {
    if White(t) && EndsWith(s[..e], t) {
      assert s[..e][e - |t|..] == s[e - |t|..e];
      SameBytes(s, e - |t|, t);
    }
  }

  lemma SameBytes(s: Text, i: nat, t: Text)
    requires i + |t| <= |s| && s[i..i + |t|] == t
    ensures |t| >= 1 ==> s[i] == t[0]
    ensures |t| >= 2 ==> s[i + 1] == t[1]
    ensures |t| >= 3 ==> s[i + 2] == t[2]
  {
    assert forall j | 0 <= j < |t| :: t[j] == s[i + j];
  }

  lemma Abut(s: Text, i: nat, j: nat, k: nat)
    requires i <= j <= k <= |s|
    ensures s[i..j] + s[j..k] == s[i..k]
  {
  }

  lemma {:induction false} LeadingSpace(s: Text, i: nat) returns (parts: seq<Text>)
    requires i <= |s|
    ensures AllWhite(parts) && Joined(parts) == s[i..TrimStart(s, i)]
    decreases |s| - i
  {
    var k := SpaceAt(s, i);
    parts := [];
    if k > 0 {
      var rest := LeadingSpace(s, i + k);
      SpaceAtIsWhite(s, i);
      parts := [s[i..i + k]] + rest;
      assert parts[1..] == rest;
      Abut(s, i, i + k, TrimStart(s, i));
    }
  }

  lemma {:induction false} TrailingSpace(s: Text, e: nat) returns (parts: seq<Text>)
    requires e <= |s|
    ensures AllWhite(parts) && Joined(parts) == s[TrimEnd(s, e)..e]
  {
    var k := SpaceBefore(s, e);
    parts := [];
    if k > 0 {
      var rest := TrailingSpace(s, e - k);
      SpaceBeforeIsWhite(s, e);
      parts := rest + [s[e - k..e]];
      JoinedLast(rest, s[e - k..e]);
      Abut(s, TrimEnd(s, e), e - k, e);
    }
  }

  /** Trimming takes off white-space characters, at both ends, and all of them. */
  lemma TrimSpaceMeans(s: Text) returns (a: seq<Text>, b: seq<Text>)
    ensures s == Joined(a) + TrimSpace(s) + Joined(b) && AllWhite(a) && AllWhite(b)
    ensures Trimmed(TrimSpace(s))
  {
    var from := TrimStart(s, 0);
    var left := s[from..];
    var to := TrimEnd(left, |left|);
    a := LeadingSpace(s, 0);
    b := TrailingSpace(left, |left|);
    Cuts(s, from, to);
    EndsAreTrimmed(s, from, to);
  }

  lemma Cuts(s: Text, from: nat, to: nat)
    requires from + to <= |s|
    ensures s == s[0..from] + s[from..][..to] + s[from..][to..|s[from..]|]
  {
  }

  lemma EndsAreTrimmed(s: Text, from: nat, to: nat)
    requires from + to <= |s| && SpaceAt(s, from) == 0 && SpaceBefore(s[from..], to) == 0
    ensures Trimmed(s[from..][..to])
  {
    var left := s[from..];
    forall t | White(t)
      ensures !(t <= left[..to]) && !EndsWith(left[..to], t)
    {
      WhiteIsSpaceAt(s, from, t);
      WhiteIsSpaceBefore(left, to, t);
    }
  }

  /** What has no white space at its ends stays as it is. */
  lemma TrimmedStays(s: Text)
    requires Trimmed(s)
    ensures TrimSpace(s) == s
  {
    SpaceAtIsWhite(s, 0);
    SpaceBeforeIsWhite(s, |s|);
    assert s[0..] == s && s[..|s|] == s;
    assert SpaceAt(s, 0) == 0 && SpaceBefore(s, |s|) == 0;
  }
}

/** Free-text search terms for LIKE predicates. */
module Search {
  import opened Texts
  import opened Trimming
  import Utf8

  const MAX_SEARCH_BYTES: nat := 200
  const PERCENT: Byte := 37
  const UNDERSCORE: Byte := 95
  const BACKSLASH: Byte := 92

  /*********************** The bound ***********************/

  /** Without the trailing bytes that do not begin a character. */
  function BackUp(s: Text): (t: Text)
    ensures t <= s
    ensures t != [] ==> Utf8.IsStart(t[|t| - 1])
    ensures forall i | |t| <= i < |s| :: Utf8.IsTail(s[i])
  {
    if s != [] && !Utf8.IsStart(s[|s| - 1]) then BackUp(s[..|s| - 1]) else s
  }

  function Bounded(s: Text): Text {
    if |s| <= MAX_SEARCH_BYTES then s
    else
      var t := BackUp(s[..MAX_SEARCH_BYTES]);
      if t != [] && t[|t| - 1] >= 0xC0 then t[..|t| - 1] else t
  }

  /** Where the cut is: a long text ends before the last character that begins within the first 200
      bytes, or after it if it is a single byte. */
  lemma CutIsAt(s: Text, p: nat)
    requires |s| > 200 && p < 200 && Utf8.IsStart(s[p]) && forall i | p < i < 200 :: Utf8.IsTail(s[i])
    ensures Bounded(s) == s[..if s[p] < 0x80 then p + 1 else p]
  {
    var head := s[..MAX_SEARCH_BYTES];
    var t := BackUp(head);
    assert head[p] == s[p];
    assert forall i | p < i < 200 :: head[i] == s[i];
    assert t == s[..p + 1];
  }

  /** The cut, as the code does it: shrinking the text byte by byte. */
  method Bound(term: Text) returns (s: Text)
    ensures s == Bounded(term)
  {
    s := term;
    if |s| > MAX_SEARCH_BYTES {
      s := s[..MAX_SEARCH_BYTES];
      while |s| > 0 && !Utf8.IsStart(s[|s| - 1])
        invariant BackUp(s) == BackUp(term[..MAX_SEARCH_BYTES])
      {
        s := s[..|s| - 1];
      }
      if |s| > 0 && s[|s| - 1] >= 0xC0 {
        s := s[..|s| - 1];
      }
    }
  }

  /** The cut keeps a valid text valid, within the bound, and gives up at most four bytes of it;
      a text within the bound is untouched. */
  lemma BoundedIsValid(s: Text)
    ensures Bounded(s) <= s && |Bounded(s)| <= 200
    ensures |s| <= 200 ==> Bounded(s) == s
    ensures Utf8.Valid(s) ==> Utf8.Valid(Bounded(s)) && (|s| > 200 ==> |Bounded(s)| >= 196)
  {
    if |s| > MAX_SEARCH_BYTES && Utf8.Valid(s) {
      LongIsCutValid(s);
    }
  }

  lemma LongIsCutValid(s: Text)
    requires |s| > MAX_SEARCH_BYTES && Utf8.Valid(s)
    ensures Utf8.Valid(Bounded(s)) && |Bounded(s)| >= MAX_SEARCH_BYTES - 4
  {
    var t := BackUp(s[..MAX_SEARCH_BYTES]);
    BackUpFindsStart(s, t);
    CutAfterStart(s, t);
  }

  /** Going back meets the beginning of a character within four bytes. */
  lemma BackUpFindsStart(s: Text, t: Text)
    requires |s| > MAX_SEARCH_BYTES && Utf8.Valid(s) && t == BackUp(s[..MAX_SEARCH_BYTES])
    ensures t <= s && |t| >= MAX_SEARCH_BYTES - 3 && Utf8.IsStart(t[|t| - 1])
  {
    Utf8.StartWithinFour(s, MAX_SEARCH_BYTES - 4);
    var cut := s[..MAX_SEARCH_BYTES];
    assert forall i | MAX_SEARCH_BYTES - 4 <= i < MAX_SEARCH_BYTES :: cut[i] == s[i];
  }

  /** What is kept up to a first byte, or without it when more bytes of its character may follow, is
      whole. */
  lemma CutAfterStart(s: Text, t: Text)
    requires Utf8.Valid(s) && t <= s && t != [] && Utf8.IsStart(t[|t| - 1])
    ensures Utf8.Valid(if t[|t| - 1] >= 0xC0 then t[..|t| - 1] else t)
  {
    var last := |t| - 1;
    assert s[last] == t[last];
    if t[last] >= 0xC0 {
      Utf8.PrefixAtBoundaryIsValid(s, t[..last]);
    } else {
      Utf8.BoundaryAfterAscii(s, last);
      Utf8.PrefixAtBoundaryIsValid(s, t);
    }
  }

  /*********************** Escaping ***********************/

  predicate IsMeta(b: Byte) {
    b == PERCENT || b == UNDERSCORE || b == BACKSLASH
  }

  function Escape(s: Text): Text {
    if s == [] then []
    else Escaped(s[0]) + Escape(s[1..])
  }

  function Escaped(b: Byte): Text {
    if IsMeta(b) then [BACKSLASH, b] else [b]
  }

  /** Escaping puts a backslash before each percent sign, underscore and backslash, and changes nothing
      else. */
  lemma EscapeUnfolds(b: Byte, s: Text)
    ensures Escape([]) == []
    ensures Escape([b] + s)
            == (if b == '%' as int || b == '_' as int || b == '\\' as int then ['\\' as int, b] else [b]) + Escape(s)
  {
    assert ([b] + s)[1..] == s;
  }

  /** LIKE with the default escape: % is any run of characters, _ any one character, and a
      backslash takes the next byte literally. */
  ghost predicate Like(t: Text, p: Text)
    decreases |p|
  {
    if p == [] then t == []
    else if p[0] == PERCENT then exists k | 0 <= k <= |t| :: Utf8.Boundary(t, k) && Like(t[k..], p[1..])
    else if p[0] == UNDERSCORE then Utf8.CharLen(t) > 0 && Like(t[Utf8.CharLen(t)..], p[1..])
    else if p[0] == BACKSLASH then |p| >= 2 && t != [] && t[0] == p[1] && Like(t[1..], p[2..])
    else t != [] && t[0] == p[0] && Like(t[1..], p[1..])
  }

  ghost predicate OccursAt(s: Text, t: Text, k: nat) {
    k + |s| <= |t| && t[k..k + |s|] == s
  }

  ghost predicate Occurs(s: Text, t: Text) {
    exists k: nat :: OccursAt(s, t, k)
  }

  /** An escaped term stands for itself. */
  lemma {:induction false} EscapedIsLiteral(t: Text, s: Text, rest: Text)
    ensures Like(t, Escape(s) + rest) <==> s <= t && Like(t[|s|..], rest)
    decreases |s|
  {
    if s == [] {
      assert Escape(s) + rest == rest && t[0..] == t;
    } else {
      var tail := Escape(s[1..]) + rest;
      EscapedByte(t, s[0], tail);
      assert Escape(s) + rest == Escaped(s[0]) + tail;
      if t != [] {
        EscapedIsLiteral(t[1..], s[1..], rest);
        PrefixStep(s, t);
      }
    }
  }

  lemma EscapedByte(t: Text, b: Byte, rest: Text)
    ensures Like(t, Escaped(b) + rest) <==> t != [] && t[0] == b && Like(t[1..], rest)
  {
    assert (Escaped(b) + rest)[|Escaped(b)|..] == rest;
  }

  lemma PrefixStep(s: Text, t: Text)
    requires s != [] && t != []
    ensures s <= t <==> s[0] == t[0] && s[1..] <= t[1..]
    ensures |s| <= |t| ==> t[1..][|s[1..]|..] == t[|s|..]
  {
    assert s == [s[0]] + s[1..] && t == [t[0]] + t[1..];
  }

  lemma AnyRunMatches(t: Text)
    ensures Like(t, [PERCENT])
  {
    assert Utf8.Boundary(t, |t|) && Like(t[|t|..], [PERCENT][1..]);
  }

  lemma MatchIsOccurrence(t: Text, s: Text, k: nat)
    requires k <= |t| && Like(t[k..], Escape(s) + [PERCENT])
    ensures OccursAt(s, t, k)
  {
    EscapedIsLiteral(t[k..], s, [PERCENT]);
    assert t[k..k + |s|] == t[k..][..|s|] == s;
  }

  lemma OccurrenceIsMatch(t: Text, s: Text, k: nat)
    requires OccursAt(s, t, k)
    ensures Like(t[k..], Escape(s) + [PERCENT])
  {
    assert t[k..][..|s|] == t[k..k + |s|] == s;
    AnyRunMatches(t[k..][|s|..]);
    EscapedIsLiteral(t[k..], s, [PERCENT]);
  }

  lemma AnywhereMatches(t: Text, p: Text)
    requires p != [] && p[0] == PERCENT
    ensures Like(t, p) <==> exists k | 0 <= k <= |t| :: Utf8.Boundary(t, k) && Like(t[k..], p[1..])
  {
  }

  /** The predicate finds a text exactly when the term occurs in it. */
  lemma EscapingPreservesMeaning(t: Text, s: Text)
    requires s == [] || Utf8.IsStart(s[0])
    ensures Like(t, [PERCENT] + Escape(s) + [PERCENT]) <==> Occurs(s, t)
  {
    var p, inner := [PERCENT] + Escape(s) + [PERCENT], Escape(s) + [PERCENT];
    assert p[1..] == inner && p[0] == PERCENT;
    AnywhereMatches(t, p);
    if Like(t, p) {
      var k :| 0 <= k <= |t| && Utf8.Boundary(t, k) && Like(t[k..], inner);
      MatchIsOccurrence(t, s, k);
    }
    if Occurs(s, t) {
      var k: nat :| OccursAt(s, t, k);
      var at := if s == [] then |t| else k;
      assert s != [] ==> t[k] == t[k..k + |s|][0] == s[0];
      assert OccursAt(s, t, at);
      OccurrenceIsMatch(t, s, at);
      assert Utf8.Boundary(t, at) && Like(t[at..], p[1..]);
    }
  }

  /** For every valid UTF-8 input the predicate built from the search term finds exactly the texts
      that hold the trimmed, bounded input. */
  lemma SearchFindsTheTerm(s: Text, t: Text)
    requires Utf8.Valid(s)
    ensures var term := Bounded(TrimSpace(s));
            Utf8.Valid(term) && (Like(t, [PERCENT] + Escape(term) + [PERCENT]) <==> Occurs(term, t))
  {
    var term := Bounded(TrimSpace(s));
    TrimLeftValid(s);
    TrimRightValid(TrimLeft(s));
    BoundedIsValid(TrimSpace(s));
    EscapingPreservesMeaning(t, term);
  }

  /** The term as it goes into the predicate: between two percent signs it finds, for valid UTF-8,
      exactly the texts that hold the trimmed and bounded input. A short input without white space at
      its ends goes in as it is, escaped. */
  method SearchTerm(s: Text) returns (r: Text)
    ensures r == Escape(Bounded(TrimSpace(s)))
    ensures Utf8.Valid(s) ==> forall t :: Like(t, [PERCENT] + r + [PERCENT]) <==> Occurs(Bounded(TrimSpace(s)), t)
    ensures Trimmed(s) && |s| <= 200 ==> r == Escape(s)
  {
    var bounded := Bound(TrimSpace(s));
    r := Escape(bounded);
    if Trimmed(s) {
      TrimmedStays(s);
    }
    forall t | Utf8.Valid(s)
      ensures Like(t, [PERCENT] + r + [PERCENT]) <==> Occurs(bounded, t)
    {
      SearchFindsTheTerm(s, t);
    }
  }

  /*********************** Ignoring case ***********************/

  function Folded(s: Text, fold: Byte -> Byte): (r: Text)
    ensures |r| == |s| && forall i | 0 <= i < |s| :: r[i] == fold(s[i])
  {
    seq(|s|, i requires 0 <= i < |s| => fold(s[i]))
  }

  /** A folding that leaves the metacharacters and the character structure alone. */
  ghost predicate Plain(fold: Byte -> Byte) {
    forall b: Byte :: (if IsMeta(b) then fold(b) == b else !IsMeta(fold(b))) && (Utf8.IsStart(b) <==> Utf8.IsStart(fold(b)))
  }

  lemma {:induction false} FoldedEscape(s: Text, fold: Byte -> Byte)
    requires Plain(fold)
    ensures Folded(Escape(s), fold) == Escape(Folded(s, fold))
  {
    if s != [] {
      FoldedEscape(s[1..], fold);
      assert Folded(s, fold)[1..] == Folded(s[1..], fold);
      assert IsMeta(s[0]) <==> IsMeta(fold(s[0]));
    }
  }

  /** Matching without regard to case finds exactly the texts that hold the term without regard
      to case. */
  lemma FoldedSearch(s: Text, t: Text, fold: Byte -> Byte)
    requires Plain(fold) && (s == [] || Utf8.IsStart(s[0]))
    ensures Like(Folded(t, fold), Folded([PERCENT] + Escape(s) + [PERCENT], fold)) <==> Occurs(Folded(s, fold), Folded(t, fold))
  {
    FoldedEscape(s, fold);
    assert IsMeta(PERCENT);
    assert Folded([PERCENT] + Escape(s) + [PERCENT], fold) == [PERCENT] + Escape(Folded(s, fold)) + [PERCENT];
    EscapingPreservesMeaning(Folded(t, fold), Folded(s, fold));
  }
}
