/** Text as Unicode scalar values: when UTF-16 is well formed, and what its UTF-8 is (sections 3 and 4 of RFC 3629). */
module Scalars {
  import opened Text
  import opened JsonText
  import opened Utf8

  type Scalar = c: nat | c <= 0x10FFFF && !(0xD800 <= c <= 0xDFFF) witness 0

  function Units(c: Scalar): Str {
    if c < 0x10000 then [c] else [0xD800 + (c - 0x10000) / 0x400, 0xDC00 + (c - 0x10000) % 0x400]
  }

  function Bytes(c: Scalar): seq<Byte> {
    if c <= 0x7F then [c]
    else if c <= 0x7FF then [0xC0 + c / 0x40, 0x80 + c % 0x40]
    else if c <= 0xFFFF then [0xE0 + c / 0x1000, 0x80 + c / 0x40 % 0x40, 0x80 + c % 0x40]
    else [0xF0 + c / 0x40000, 0x80 + c / 0x1000 % 0x40, 0x80 + c / 0x40 % 0x40, 0x80 + c % 0x40]
  }

  function AllUnits(cs: seq<Scalar>): Str { if cs == [] then [] else Units(cs[0]) + AllUnits(cs[1..]) }

  function AllBytes(cs: seq<Scalar>): seq<Byte> { if cs == [] then [] else Bytes(cs[0]) + AllBytes(cs[1..]) }

  lemma UnitsAreWellFormed(c: Scalar)
    ensures WellFormed(Units(c))
  {
  }

  lemma Shifts(c: nat)
    ensures c / 64 / 64 == c / 0x1000 && c / 64 / 64 / 64 == c / 0x40000
  {
  }

  lemma SurrogatesOf(c: Scalar)
    requires c >= 0x10000
    ensures var u := Units(c); |u| == 2 && IsHigh(u[0]) && IsLow(u[1]) && CodePoint(u[0], u[1]) == c
  {
  }

  lemma PairOf(c: Scalar)
    requires c >= 0x10000
    ensures var u := Units(c);
            |u| == 2 && IsHigh(u[0]) && IsLow(u[1]) && CodePoint(u[0], u[1]) == c && Pair(u[0], u[1]) == Bytes(c)
  {
    hide Units, CodePoint, IsHigh, IsLow;
    SurrogatesOf(c);
    Shifts(c);
  }

  lemma OneOf(c: Scalar)
    requires c < 0x10000
    ensures Units(c) == [c] && !IsHigh(c) && !IsLow(c) && OneUnit(c) == Bytes(c)
  {
    Shifts(c);
  }

  lemma EncodeOne(c: Scalar, rest: Str)
    ensures Encode(Units(c) + rest) == Bytes(c) + Encode(rest)
  {
    hide Units, Bytes, OneUnit, Pair, IsHigh, IsLow, CodePoint;
    var u, s := Units(c), Units(c) + rest;
    if c < 0x10000 {
      OneOf(c);
      assert s[0] == c && s[1..] == rest;
    } else {
      PairOf(c);
      assert s[0] == u[0] && s[1] == u[1] && s[2..] == rest;
    }
  }

  /** The encoder writes the UTF-8 of every text. */
  lemma {:induction false} EncodeIsUtf8(cs: seq<Scalar>)
    ensures Encode(AllUnits(cs)) == AllBytes(cs)
  {
    if cs != [] {
      EncodeIsUtf8(cs[1..]);
      EncodeOne(cs[0], AllUnits(cs[1..]));
    }
  }

  lemma {:induction false} AllUnitsAreWellFormed(cs: seq<Scalar>)
    ensures WellFormed(AllUnits(cs))
  {
    if cs != [] {
      AllUnitsAreWellFormed(cs[1..]);
      UnitsAreWellFormed(cs[0]);
      Concatenates(Units(cs[0]), AllUnits(cs[1..]));
    }
  }

  lemma {:induction false} ReadScalars(s: Str) returns (cs: seq<Scalar>)
    requires WellFormed(s)
    ensures AllUnits(cs) == s
    decreases |s|
  {
    cs := [];
    if s != [] {
      TailIsWellFormed(s);
      var rest := ReadScalars(Tail(s));
      var c: Scalar := if StartsWithPair(s) then CodePoint(s[0], s[1]) else s[0];
      cs := [c] + rest;
      assert cs[1..] == rest && s == Units(c) + Tail(s);
    }
  }

  /** A text has no lone surrogate exactly when it is the UTF-16 of some scalar values. */
  lemma WellFormedIff(s: Str)
    ensures WellFormed(s) <==> exists cs :: AllUnits(cs) == s
  {
    if WellFormed(s) {
      var cs := ReadScalars(s);
    }
    forall cs: seq<Scalar> ensures WellFormed(AllUnits(cs)) {
      AllUnitsAreWellFormed(cs);
    }
  }
}
