/**
 * JSON string literals as well-formed JSON.stringify writes them, and the
 * reader of section 7 of RFC 8259 that undoes them.
 */
module JsonText {
  import opened Text

  const QUOTE: Unit := 0x22
  const BACKSLASH: Unit := 0x5C
  const LETTER_U: Unit := 0x75

  function HexDigit(n: nat): (c: Unit)
    requires n < 16
  {
    if n < 10 then 48 + n else 87 + n
  }

  function HexValue(c: Unit): (n: Option<nat>)
    ensures n.Some? ==> n.value < 16
  {
    if 48 <= c <= 57 then Some(c - 48)
    else if 97 <= c <= 102 then Some(c - 87)
    else if 65 <= c <= 70 then Some(c - 55)
    else None
  }

  function Hex4(c: Unit): (h: Str)
    ensures |h| == 4
  {
    [HexDigit(c / 16 / 16 / 16), HexDigit(c / 16 / 16 % 16), HexDigit(c / 16 % 16), HexDigit(c % 16)]
  }

  function FromHex4(a: Unit, b: Unit, c: Unit, d: Unit): Option<Unit> {
    match (HexValue(a), HexValue(b), HexValue(c), HexValue(d))
    case (Some(w), Some(x), Some(y), Some(z)) => Some(((w * 16 + x) * 16 + y) * 16 + z)
    case _ => None
  }

  /** The two-character escapes: the letter written after the backslash. */
  function ShortEscape(c: Unit): Option<Unit> {
    match c
    case 0x22 => Some(0x22)
    case 0x5C => Some(0x5C)
    case 8 => Some(0x62)
    case 9 => Some(0x74)
    case 10 => Some(0x6E)
    case 12 => Some(0x66)
    case 13 => Some(0x72)
    case _ => None
  }

  function FromShortEscape(letter: Unit): Option<Unit> {
    match letter
    case 0x22 => Some(0x22)
    case 0x5C => Some(0x5C)
    case 0x2F => Some(0x2F)
    case 0x62 => Some(8)
    case 0x74 => Some(9)
    case 0x6E => Some(10)
    case 0x66 => Some(12)
    case 0x72 => Some(13)
    case _ => None
  }

  /** Whether the code unit at `i` is a surrogate that is not half of a pair. */
  predicate Lone(s: Str, i: nat)
    requires i < |s|
  {
    || (IsHigh(s[i]) && !(i + 1 < |s| && IsLow(s[i + 1])))
    || (IsLow(s[i]) && !(i > 0 && IsHigh(s[i - 1])))
  }

  function EscapeUnit(c: Unit, lone: bool): Str {
    if ShortEscape(c).Some? then [BACKSLASH, ShortEscape(c).value]
    else if c < 0x20 || lone then [BACKSLASH, LETTER_U] + Hex4(c)
    else [c]
  }

  /** Surrogate pairs pass through; lone surrogates are escaped. */
  function Escape(s: Str, i: nat := 0): Str
    requires i <= |s|
    decreases |s| - i
  {
    if i == |s| then [] else EscapeUnit(s[i], Lone(s, i)) + Escape(s, i + 1)
  }

  function Quote(s: Str): Str { [QUOTE] + (Escape(s) + [QUOTE]) }

  /** Reads one string character, escaped or not; yields it and what follows. */
  function ReadUnit(s: Str): (r: Option<(Unit, Str)>)
    ensures r.Some? ==> |r.value.1| < |s|
  {
    if s == [] || s[0] < 0x20 || s[0] == QUOTE then None
    else if s[0] != BACKSLASH then Some((s[0], s[1..]))
    else if |s| > 5 && s[1] == LETTER_U then
      match FromHex4(s[2], s[3], s[4], s[5])
      case None => None
      case Some(c) => Some((c, s[6..]))
    else if |s| > 1 && FromShortEscape(s[1]).Some? then Some((FromShortEscape(s[1]).value, s[2..]))
    else None
  }

  /** Reads string characters up to the closing quote; yields the string and what follows it. */
  function Unquote(s: Str): (r: Option<(Str, Str)>)
    ensures r.Some? ==> |r.value.1| < |s|
  {
    if s != [] && s[0] == QUOTE then Some(([], s[1..]))
    else
      match ReadUnit(s)
      case None => None
      case Some((c, tail)) =>
        match Unquote(tail)
        case None => None
        case Some((t, rest)) => Some(([c] + t, rest))
  }

  const HEX_DIGITS := "0123456789abcdef"

  /**
   * What is escaped, and in how many characters: quote, backslash and the five
   * controls with a letter of their own in two, the other controls and lone
   * surrogates in six, with lower-case digits, and nothing else.
   */
  lemma EscapedIff(c: Unit, lone: bool)
    ensures EscapeUnit(c, lone) == [c] <==> c != 0x22 && c != 0x5C && c >= 0x20 && !lone
    ensures |EscapeUnit(c, lone)| == 2 <==>
              c == 0x22 || c == 0x5C || c == 8 || c == 9 || c == 10 || c == 12 || c == 13
    ensures |EscapeUnit(c, lone)| == 6 ==>
              forall i | 2 <= i < 6 :: exists n | 0 <= n < 16 :: EscapeUnit(c, lone)[i] == HEX_DIGITS[n] as int
  {
    assert forall n | 0 <= n < 16 :: HexDigit(n) == HEX_DIGITS[n] as int;
  }

  lemma HexDigitRoundTrip(n: nat)
    requires n < 16
    ensures HexValue(HexDigit(n)) == Some(n)
  {
  }

  lemma HexRoundTrip(c: Unit)
    ensures var h := Hex4(c); FromHex4(h[0], h[1], h[2], h[3]) == Some(c)
  {
    hide HexDigit, HexValue;
    HexDigitRoundTrip(c / 16 / 16 / 16);
    HexDigitRoundTrip(c / 16 / 16 % 16);
    HexDigitRoundTrip(c / 16 % 16);
    HexDigitRoundTrip(c % 16);
  }

  lemma ReadHex(c: Unit, tail: Str)
    ensures ReadUnit([BACKSLASH, LETTER_U] + Hex4(c) + tail) == Some((c, tail))
  {
    HexRoundTrip(c);
    hide Hex4, FromHex4;
    var h := Hex4(c);
    var s := [BACKSLASH, LETTER_U] + h + tail;
    assert s[2] == h[0] && s[3] == h[1] && s[4] == h[2] && s[5] == h[3];
    assert s[6..] == tail;
  }

  lemma ReadEscaped(c: Unit, lone: bool, tail: Str)
    ensures ReadUnit(EscapeUnit(c, lone) + tail) == Some((c, tail))
    ensures (EscapeUnit(c, lone) + tail)[0] != QUOTE
  {
    hide Hex4, FromHex4;
    var e := EscapeUnit(c, lone);
    if ShortEscape(c).Some? {
      assert (e + tail)[2..] == tail;
    } else if c < 0x20 || lone {
      ReadHex(c, tail);
    } else {
      assert (e + tail)[1..] == tail;
    }
  }

  /** Reading back a printed string recovers it exactly, lone surrogates and control characters included. */
  lemma {:induction false} UnquoteEscape(s: Str, i: nat, rest: Str)
    requires i <= |s|
    ensures Unquote(Escape(s, i) + ([QUOTE] + rest)) == Some((s[i..], rest))
    decreases |s| - i
  {
    var q := [QUOTE] + rest;
    if i == |s| {
      assert Escape(s, i) + q == q;
      assert q[1..] == rest;
    } else {
      var e, tail := EscapeUnit(s[i], Lone(s, i)), Escape(s, i + 1);
      assert Escape(s, i) + q == e + (tail + q);
      ReadEscaped(s[i], Lone(s, i), tail + q);
      UnquoteEscape(s, i + 1, rest);
      assert s[i..] == [s[i]] + s[i + 1..];
    }
  }
}
