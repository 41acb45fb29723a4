/** The bytes Node hashes for a string: UTF-8, with U+FFFD for lone surrogates. */
module Utf8 {
  import opened Text
  import opened JsonText

  type Byte = n: int | 0 <= n < 256

  /** No lone surrogate. */
  predicate WellFormed(s: Str) { forall i | 0 <= i < |s| :: !Lone(s, i) }

  predicate StartsWithPair(s: Str) { |s| > 1 && IsHigh(s[0]) && IsLow(s[1]) }

  const REPLACEMENT: Unit := 0xFFFD

  /** A character of the basic plane. */
  function OneUnit(c: Unit): seq<Byte> {
    if c < 0x80 then [c]
    else if c < 0x800 then [0xC0 + c / 64, 0x80 + c % 64]
    else [0xE0 + c / 64 / 64, 0x80 + c / 64 % 64, 0x80 + c % 64]
  }

  function CodePoint(high: Unit, low: Unit): nat
    requires IsHigh(high) && IsLow(low)
  {
    0x10000 + (high - 0xD800) * 0x400 + (low - 0xDC00)
  }

  function Pair(high: Unit, low: Unit): seq<Byte>
    requires IsHigh(high) && IsLow(low)
  {
    var c := CodePoint(high, low);
    [0xF0 + c / 64 / 64 / 64, 0x80 + c / 64 / 64 % 64, 0x80 + c / 64 % 64, 0x80 + c % 64]
  }

  function Head(s: Str): seq<Byte>
    requires s != []
  {
    if StartsWithPair(s) then Pair(s[0], s[1])
    else OneUnit(if IsHigh(s[0]) || IsLow(s[0]) then REPLACEMENT else s[0])
  }

  function Tail(s: Str): (t: Str)
    requires s != []
    ensures |t| < |s|
  {
    if StartsWithPair(s) then s[2..] else s[1..]
  }

  function Encode(s: Str): seq<Byte> {
    if s == [] then [] else Head(s) + Encode(Tail(s))
  }

  // ---------------------------------------------------------------- well-formed text

  lemma Concatenates(a: Str, b: Str)
    requires WellFormed(a) && WellFormed(b)
    ensures WellFormed(a + b)
  {
    var s := a + b;
    forall i | 0 <= i < |s| ensures !Lone(s, i) {
      if i < |a| {
        assert !Lone(a, i) && s[i] == a[i];
      } else {
        assert !Lone(b, i - |a|) && s[i] == b[i - |a|];
      }
    }
  }

  lemma PlainIsWellFormed(s: Str)
    requires forall i | 0 <= i < |s| :: !IsHigh(s[i]) && !IsLow(s[i])
    ensures WellFormed(s)
  {
  }

  lemma TailIsWellFormed(s: Str)
    requires s != [] && WellFormed(s)
    ensures WellFormed(Tail(s))
    ensures !StartsWithPair(s) ==> !IsHigh(s[0]) && !IsLow(s[0])
  {
    var t, k := Tail(s), |s| - |Tail(s)|;
    assert !Lone(s, 0);
    forall i | 0 <= i < |t| ensures !Lone(t, i) {
      assert !Lone(s, i + k) && t[i] == s[i + k];
    }
  }

  // ---------------------------------------------------------------- the encoding is injective

  lemma OneUnitInjective(c: Unit, d: Unit)
    requires OneUnit(c) == OneUnit(d)
    ensures c == d
  {
    assert c == c / 64 * 64 + c % 64 && c / 64 == c / 64 / 64 * 64 + c / 64 % 64;
    assert d == d / 64 * 64 + d % 64 && d / 64 == d / 64 / 64 * 64 + d / 64 % 64;
    var u, v := OneUnit(c), OneUnit(d);
    assert u[0] == v[0] && (|u| > 1 ==> u[1] == v[1]) && (|u| > 2 ==> u[2] == v[2]);
  }

  lemma PairInjective(a: Unit, b: Unit, c: Unit, d: Unit)
    requires IsHigh(a) && IsLow(b) && IsHigh(c) && IsLow(d) && Pair(a, b) == Pair(c, d)
    ensures a == c && b == d
  {
    var m, n := CodePoint(a, b), CodePoint(c, d);
    var u, v := Pair(a, b), Pair(c, d);
    assert u[0] == v[0] && u[1] == v[1] && u[2] == v[2] && u[3] == v[3];
    assert m / 64 / 64 == m / 64 / 64 / 64 * 64 + m / 64 / 64 % 64;
    assert n / 64 / 64 == n / 64 / 64 / 64 * 64 + n / 64 / 64 % 64;
    assert m / 64 == m / 64 / 64 * 64 + m / 64 % 64 && n / 64 == n / 64 / 64 * 64 + n / 64 % 64;
    assert m == m / 64 * 64 + m % 64 && n == n / 64 * 64 + n % 64;
  }

  /** The first byte tells how many belong to the character. */
  lemma HeadLength(s: Str)
    requires s != []
    ensures Head(s) != []
    ensures var b := Head(s)[0];
            |Head(s)| == if b < 0x80 then 1 else if b < 0xE0 then 2 else if b < 0xF0 then 3 else 4
    ensures |Head(s)| == 4 <==> StartsWithPair(s)
  {
  }

  lemma {:induction false} EncodeInjective(a: Str, b: Str)
    requires WellFormed(a) && WellFormed(b) && Encode(a) == Encode(b)
    ensures a == b
    decreases |a|
  {
    if a == [] || b == [] {
      if a != [] {
        HeadLength(a);
      }
      if b != [] {
        HeadLength(b);
      }
    } else {
      HeadLength(a);
      HeadLength(b);
      TailIsWellFormed(a);
      TailIsWellFormed(b);
      SplitAt(Head(a), Encode(Tail(a)), Head(b), Encode(Tail(b)));
      EncodeInjective(Tail(a), Tail(b));
      HeadInjective(a, b);
    }
  }

  lemma SplitAt(a: seq<Byte>, x: seq<Byte>, b: seq<Byte>, y: seq<Byte>)
    requires a + x == b + y && a != [] && b != []
    ensures a[0] == b[0]
    ensures |a| == |b| ==> a == b && x == y
  {
    assert (a + x)[0] == a[0] && (b + y)[0] == b[0];
    if |a| == |b| {
      assert a == (a + x)[..|a|] && b == (b + y)[..|b|];
      assert x == (a + x)[|a|..] && y == (b + y)[|b|..];
    }
  }

  lemma HeadInjective(a: Str, b: Str)
    requires a != [] && b != [] && WellFormed(a) && WellFormed(b)
    requires Head(a) == Head(b) && Tail(a) == Tail(b)
    ensures a == b
  {
    HeadLength(a);
    HeadLength(b);
    TailIsWellFormed(a);
    TailIsWellFormed(b);
    if StartsWithPair(a) {
      PairInjective(a[0], a[1], b[0], b[1]);
      assert a == [a[0], a[1]] + Tail(a) && b == [b[0], b[1]] + Tail(b);
    } else {
      OneUnitInjective(a[0], b[0]);
      assert a == [a[0]] + Tail(a) && b == [b[0]] + Tail(b);
    }
  }

  lemma EncodeUnfolds(s: Str)
    ensures Encode(s) == if s == [] then [] else Head(s) + Encode(Tail(s))
  {
  }

  /** Hashing in two updates is hashing the concatenation. */
  lemma {:induction false} EncodeAppend(a: Str, b: Str)
    requires WellFormed(a)
    ensures Encode(a + b) == Encode(a) + Encode(b)
    decreases |a|
  {
    hide *;
    EncodeUnfolds(a);
    if a == [] {
      assert a + b == b;
    } else {
      HeadOfAppend(a, b);
      TailIsWellFormed(a);
      EncodeUnfolds(a + b);
      EncodeAppend(Tail(a), b);
    }
  }

  lemma HeadOfAppend(a: Str, b: Str)
    requires a != [] && WellFormed(a)
    ensures a + b != [] && Head(a + b) == Head(a) && Tail(a + b) == Tail(a) + b
  {
    assert !Lone(a, 0);
    assert StartsWithPair(a + b) <==> StartsWithPair(a);
    hide OneUnit, Pair;
  }

  // ---------------------------------------------------------------- escaped strings

  lemma EscapedUnitIsPlain(c: Unit, lone: bool)
    requires (IsHigh(c) || IsLow(c)) ==> lone
    ensures WellFormed(EscapeUnit(c, lone))
  {
  }

  lemma EscapeUnfolds(s: Str, i: nat)
    requires i < |s|
    ensures Escape(s, i) == EscapeUnit(s[i], Lone(s, i)) + Escape(s, i + 1)
    ensures IsHigh(s[i]) && !Lone(s, i) ==>
              i + 1 < |s| && IsLow(s[i + 1]) && Escape(s, i) == [s[i], s[i + 1]] + Escape(s, i + 2)
  {
    if IsHigh(s[i]) && !Lone(s, i) {
      assert Escape(s, i + 1) == [s[i + 1]] + Escape(s, i + 2);
    }
  }

  /** Escaping leaves no lone surrogate, wherever it starts except inside a pair. */
  lemma {:induction false} EscapeWellFormed(s: Str, i: nat)
    requires i <= |s|
    requires i < |s| && IsLow(s[i]) ==> Lone(s, i)
    ensures WellFormed(Escape(s, i))
    decreases |s| - i
  {
    if i < |s| {
      EscapeUnfolds(s, i);
      if IsHigh(s[i]) && !Lone(s, i) {
        EscapeWellFormed(s, i + 2);
        Concatenates([s[i], s[i + 1]], Escape(s, i + 2));
      } else {
        EscapeWellFormed(s, i + 1);
        EscapedUnitIsPlain(s[i], Lone(s, i));
        Concatenates(EscapeUnit(s[i], Lone(s, i)), Escape(s, i + 1));
      }
    }
  }
}
